/** The quick helper calls (src/fast_ai.py): the report filename, the key-insight list and the
    short summary, each computed from the fast model's reply. The requests are not modelled: the
    reply is an input. */
module FastAI {
  import opened Text
  import opened Collections
  import opened Backend

  // ---------------------------------------------------------------- filenames

  /** The characters `[a-z0-9_]` that survive the filename cleanup. */
  predicate IsNameChar(c: char) {
    IsLowerLetter(c) || IsDigit(c) || c == '_'
  }

  predicate IsUnderscore(c: char) { c == '_' }

  predicate NotUnderscore(c: char) { c != '_' }

  predicate AllNameChars(s: String) {
    forall i :: 0 <= i < |s| ==> IsNameChar(s[i])
  }

  /** The topic lower-cased with spaces turned into underscores, cut to 30 characters. */
  function TopicStem(topic: String): (stem: String)
    ensures |stem| <= 30
  {
    Take(ReplaceChar(Lower(topic), ' ', '_'), 30)
  }

  /** `_generate_fallback_filename`: the topic stem with every character outside `[a-z0-9_]`
      removed. Truncation comes first, so the name can be shorter than 30 characters, or
      empty, even when the topic has more usable characters further on. */
  function FallbackFilename(topic: String): (name: String)
    ensures |name| <= 30
    ensures AllNameChars(name)
    ensures IsSubsequence(name, TopicStem(topic))
  {
    FilterIsSubsequence(IsNameChar, TopicStem(topic));
    FilterMembers(IsNameChar, TopicStem(topic));
    Filter(IsNameChar, TopicStem(topic))
  }

  /** Only the first 30 characters of the topic matter. */
  lemma FallbackFilenameIgnoresTail(topic: String, rest: String)
    requires |topic| >= 30
    ensures FallbackFilename(topic + rest) == FallbackFilename(topic)
  {
    assert TopicStem(topic + rest) == TopicStem(topic);
  }

  /** `re.sub(r'_+', '_', s)`: every run of underscores becomes one underscore, so no "__"
      is left; the result is empty only for empty input and ends with the input's last
      character. */
  function CollapseUnderscores(s: String): (r: String)
    ensures |r| <= |s|
    ensures NoDoubleUnderscore(r)
    ensures s != [] ==> r != [] && r[|r| - 1] == s[|s| - 1]
  {
    if s == [] then []
    else
      var r := CollapseUnderscores(s[..|s| - 1]);
      var c := s[|s| - 1];
      if c == '_' && r != [] && r[|r| - 1] == '_' then r else r + [c]
  }

  predicate NoDoubleUnderscore(s: String) {
    forall i :: 0 <= i < |s| - 1 ==> !(s[i] == '_' && s[i + 1] == '_')
  }

  /** Collapsing keeps every character other than `_`, in order. */
  lemma {:induction false} CollapseKeepsOthers(s: String)
    ensures Filter(NotUnderscore, CollapseUnderscores(s)) == Filter(NotUnderscore, s)
  {
    if s != [] {
      var init := s[..|s| - 1];
      var r := CollapseUnderscores(init);
      var c := s[|s| - 1];
      CollapseKeepsOthers(init);
      if !(c == '_' && r != [] && r[|r| - 1] == '_') {
        var rc := r + [c];
        assert rc[..|rc| - 1] == r;
      }
    }
  }

  /** Collapsing introduces no character. */
  lemma {:induction false} CollapseDrawsFrom(s: String)
    ensures forall i :: 0 <= i < |CollapseUnderscores(s)| ==> CollapseUnderscores(s)[i] in s
  {
    if s != [] {
      var init := s[..|s| - 1];
      CollapseDrawsFrom(init);
      var r := CollapseUnderscores(init);
      forall i | 0 <= i < |r| ensures r[i] in s {
        assert r[i] in init;
      }
    }
  }

  /** The cleanup of the model's reply: stripped, lower-cased, reduced to `[a-z0-9_]`, runs of
      underscores collapsed and underscores trimmed from both ends. */
  function CleanName(reply: String): (name: String)
    ensures |name| <= |reply|
  {
    Trim(CollapseUnderscores(Filter(IsNameChar, Lower(Strip(reply)))), IsUnderscore)
  }

  /** A non-empty cleaned name uses only `[a-z0-9_]`, contains no "__" and neither starts nor
      ends with `_`. */
  lemma CleanNameShape(reply: String)
    ensures AllNameChars(CleanName(reply))
    ensures NoDoubleUnderscore(CleanName(reply))
    ensures CleanName(reply) != [] ==> CleanName(reply)[0] != '_' && CleanName(reply)[|CleanName(reply)| - 1] != '_'
  {
    var kept := Filter(IsNameChar, Lower(Strip(reply)));
    FilterMembers(IsNameChar, Lower(Strip(reply)));
    var collapsed := CollapseUnderscores(kept);
    CollapseDrawsFrom(kept);
    assert AllNameChars(collapsed) by {
      forall i | 0 <= i < |collapsed| ensures IsNameChar(collapsed[i]) {
        assert collapsed[i] in kept;
      }
    }
    SliceShape(collapsed, IsUnderscore);
  }

  /** A trimmed piece of a string of name characters without "__" has the same two properties. */
  lemma SliceShape(s: String, drop: char -> bool)
    requires AllNameChars(s) && NoDoubleUnderscore(s)
    ensures AllNameChars(Trim(s, drop)) && NoDoubleUnderscore(Trim(s, drop))
  {
    var k := TrimIsSlice(s, drop);
    SubstringShape(s, Trim(s, drop), k);
  }

  /** Any contiguous piece of a string of name characters without "__" keeps both properties. */
  lemma SubstringShape(s: String, name: String, k: nat)
    requires AllNameChars(s) && NoDoubleUnderscore(s)
    requires k + |name| <= |s| && name == s[k..k + |name|]
    ensures AllNameChars(name) && NoDoubleUnderscore(name)
  {
    forall i | 0 <= i < |name| ensures IsNameChar(name[i]) {
      assert name[i] == s[k + i];
    }
    forall i | 0 <= i < |name| - 1 ensures !(name[i] == '_' && name[i + 1] == '_') {
      assert name[i] == s[k + i] && name[i + 1] == s[k + i + 1];
    }
  }

  /** `generate_report_name` as written: a delivered reply is cleaned, and when nothing is left
      the topic stem is used as it is, without removing any character; any other outcome uses
      the fallback filename. */
  function GenerateReportName(topic: String, reply: Reply): (name: String)
    ensures !Delivered(reply) ==> AllNameChars(name) && |name| <= 30
    ensures Delivered(reply) && CleanName(Content(reply)) != [] ==> AllNameChars(name) && NoDoubleUnderscore(name)
    ensures Delivered(reply) && CleanName(Content(reply)) == [] ==> |name| <= 30
  {
    if Delivered(reply) then
      var name := CleanName(Content(reply));
      CleanNameShape(Content(reply));
      if name == [] then TopicStem(topic) else name
    else FallbackFilename(topic)
  }

  /** The letters and digits of the name, `[a-z0-9]`. */
  predicate IsLowerAlnum(c: char) { IsLowerLetter(c) || IsDigit(c) }

  /** The cleanup loses no letter or digit: with its underscores taken out, the cleaned name is
      exactly the letters and digits of the lower-cased reply, in order. */
  lemma CleanNameKeeps(reply: String)
    ensures Filter(NotUnderscore, CleanName(reply)) == Filter(IsLowerAlnum, Lower(reply))
  {
    var lowered := Lower(Strip(reply));
    var kept := Filter(IsNameChar, lowered);
    var collapsed := CollapseUnderscores(kept);
    calc {
      Filter(NotUnderscore, CleanName(reply));
    == { TrimKeepsOthers(collapsed); }
      Filter(NotUnderscore, collapsed);
    == { CollapseKeepsOthers(kept); }
      Filter(NotUnderscore, kept);
    == { FilterFilter(IsNameChar, NotUnderscore, IsLowerAlnum, lowered); }
      Filter(IsLowerAlnum, lowered);
    == { StripKeepsAlnum(reply); }
      Filter(IsLowerAlnum, Lower(reply));
    }
  }

  /** Trimming underscores from the ends removes nothing but underscores. */
  lemma TrimKeepsOthers(s: String)
    ensures Filter(NotUnderscore, Trim(s, IsUnderscore)) == Filter(NotUnderscore, s)
  {
    var k := TrimIsSlice(s, IsUnderscore);
    var n := |Trim(s, IsUnderscore)|;
    AllSatisfyAll(s[..k], IsUnderscore);
    AllSatisfyAll(s[k + n..], IsUnderscore);
    forall i | 0 <= i < k ensures !NotUnderscore(s[i]) {
      assert s[..k][i] == s[i];
    }
    forall i | k + n <= i < |s| ensures !NotUnderscore(s[i]) {
      assert s[k + n..][i - k - n] == s[i];
    }
    FilterOfMiddle(NotUnderscore, s, k, n);
  }

  /** Stripping the reply before lower-casing it removes no letter or digit. */
  lemma StripKeepsAlnum(reply: String)
    ensures Filter(IsLowerAlnum, Lower(Strip(reply))) == Filter(IsLowerAlnum, Lower(reply))
  {
    var k := StripIsSlice(reply);
    SpaceEdgesKeepAlnum(reply, Strip(reply), k);
  }

  /** Whitespace cut from both ends holds no letter or digit, lower-cased or not. */
  lemma SpaceEdgesKeepAlnum(s: String, r: String, k: nat)
    requires TrimmedAt(r, s, IsSpace, k)
    ensures Filter(IsLowerAlnum, Lower(r)) == Filter(IsLowerAlnum, Lower(s))
  {
    var n := |r|;
    var low := Lower(s);
    AllSatisfyAll(s[..k], IsSpace);
    AllSatisfyAll(s[k + n..], IsSpace);
    assert Lower(r) == low[k..k + n] by {
      assert r == s[k..k + n];
    }
    forall i | 0 <= i < k ensures !IsLowerAlnum(low[i]) {
      assert s[..k][i] == s[i];
    }
    forall i | k + n <= i < |low| ensures !IsLowerAlnum(low[i]) {
      assert s[k + n..][i - k - n] == s[i];
    }
    FilterOfMiddle(IsLowerAlnum, low, k, n);
  }

  /** A reply with no letter, digit or underscore cleans to nothing. */
  lemma CleanNameEmpty(reply: String)
    requires forall i :: 0 <= i < |reply| ==> !IsNameChar(LowerChar(reply[i]))
    ensures CleanName(reply) == []
  {
    var stripped := Strip(reply);
    var k := TrimIsSlice(reply, IsSpace);
    var lowered := Lower(stripped);
    forall i | 0 <= i < |lowered| ensures !IsNameChar(lowered[i]) {
      assert stripped[i] == reply[k + i];
    }
    FilterNone(IsNameChar, lowered);
  }

  /** When the reply cleans to nothing, a short lower-case topic without spaces becomes the name
      exactly as it is, whatever characters it holds. */
  lemma ReportNameKeepsTopic(topic: String, junk: String)
    requires |topic| <= 30
    requires forall i :: 0 <= i < |topic| ==> !IsUpper(topic[i]) && topic[i] != ' '
    requires forall i :: 0 <= i < |junk| ==> !IsNameChar(LowerChar(junk[i]))
    ensures GenerateReportName(topic, Answered(200, Completion(junk))) == topic
  {
    CleanNameEmpty(junk);
    EmptyCleanupUsesStem(topic, junk);
    TopicStemOfPlainTopic(topic);
  }

  /** A delivered reply that cleans to nothing leaves the topic stem as the name. */
  lemma EmptyCleanupUsesStem(topic: String, content: String)
    requires CleanName(content) == []
    ensures Delivered(Answered(200, Completion(content)))
    ensures GenerateReportName(topic, Answered(200, Completion(content))) == TopicStem(topic)
  {
  }

  /** A short topic with no capital letter and no space is its own stem. */
  lemma TopicStemOfPlainTopic(topic: String)
    requires |topic| <= 30
    requires forall i :: 0 <= i < |topic| ==> !IsUpper(topic[i]) && topic[i] != ' '
    ensures TopicStem(topic) == topic
  {
    var replaced := ReplaceChar(Lower(topic), ' ', '_');
    assert replaced == topic by {
      forall i | 0 <= i < |topic| ensures replaced[i] == topic[i] {
        assert Lower(topic)[i] == topic[i];
      }
    }
  }

  /** A topic "/tmp/x" with a reply of punctuation gives the name "/tmp/x", which `os.path.join`
      then reads as an absolute path outside the reports directory. */
  lemma UnsanitisedReportName(topic: String, junk: String)
    requires topic == "/tmp/x" && junk == "!!!"
    ensures GenerateReportName(topic, Answered(200, Completion(junk))) == topic
    ensures !AllNameChars(GenerateReportName(topic, Answered(200, Completion(junk))))
  {
    ExampleTopicIsPlain(topic);
    ExampleReplyIsJunk(junk);
    ReportNameKeepsTopic(topic, junk);
    SlashIsNoName(topic);
  }

  /** A name starting with `/` is not made of `[a-z0-9_]`. */
  lemma SlashIsNoName(name: String)
    requires name != [] && name[0] == '/'
    ensures !AllNameChars(name)
  {
  }

  /** The example topic has no capital letter and no space. */
  lemma ExampleTopicIsPlain(topic: String)
    requires topic == "/tmp/x"
    ensures forall i :: 0 <= i < |topic| ==> !IsUpper(topic[i]) && topic[i] != ' '
  {
    forall i | 0 <= i < |topic| ensures !IsUpper(topic[i]) && topic[i] != ' ' {
      assert topic[i] in "/tmpx";
    }
  }

  /** The example reply has no character that survives the cleanup. */
  lemma ExampleReplyIsJunk(junk: String)
    requires junk == "!!!"
    ensures forall i :: 0 <= i < |junk| ==> !IsNameChar(LowerChar(junk[i]))
  {
    forall i | 0 <= i < |junk| ensures !IsNameChar(LowerChar(junk[i])) {
      assert junk[i] == '!';
    }
  }

  /** The report name with the empty-cleanup case sanitised like the fallback filename. */
  function GenerateReportNameSanitised(topic: String, reply: Reply): (name: String)
    ensures AllNameChars(name)
    ensures NoDoubleUnderscore(name) || name == FallbackFilename(topic)
    ensures Delivered(reply) && CleanName(Content(reply)) != [] ==> name == GenerateReportName(topic, reply)
  {
    if Delivered(reply) then
      var name := CleanName(Content(reply));
      CleanNameShape(Content(reply));
      if name == [] then FallbackFilename(topic) else name
    else FallbackFilename(topic)
  }

  // ---------------------------------------------------------------- insights

  /** `re.sub(r'-\s*', '', s)`: every hyphen and the whitespace after it removed, wherever they
      stand. */
  function DropDashes(s: String): String
    decreases |s|
  {
    if s == [] then []
    else if s[0] == '-' then DropDashes(TrimStart(s[1..], IsSpace))
    else [s[0]] + DropDashes(s[1..])
  }

  /** No hyphen is left after the removal. */
  lemma {:induction false} DropDashesRemovesAll(s: String)
    ensures '-' !in DropDashes(s)
    decreases |s|
  {
    if s != [] {
      if s[0] == '-' {
        DropDashesRemovesAll(TrimStart(s[1..], IsSpace));
      } else {
        DropDashesRemovesAll(s[1..]);
      }
    }
  }

  /** The `^\d+\.?\s*` alternative: a leading number, an optional dot and the whitespace after
      them; a line not starting with a digit is left alone. */
  function DropLeadingNumber(s: String): (r: String)
    ensures |r| <= |s| && r == s[|s| - |r|..]
  {
    if s != [] && IsDigit(s[0]) then
      var t := TrimStart(s, IsDigit);
      var u := if t != [] && t[0] == '.' then t[1..] else t;
      TrimStart(u, IsSpace)
    else s
  }

  /** The insight text of a stripped line as the pattern `^\d+\.?\s*|-\s*` is written: the
      leading number removed, then every hyphen with its following whitespace, wherever it
      stands, then the ends stripped. `InsightTextAnchored` below is the corrected version. */
  function InsightText(line: String): (r: String)
    ensures '-' !in r && IsStripped(r)
  {
    DropDashesRemovesAll(DropLeadingNumber(line));
    StripKeepsOut(DropDashes(DropLeadingNumber(line)), '-');
    Strip(DropDashes(DropLeadingNumber(line)))
  }

  /** A stripped line is an entry of the list when it starts with a digit or `-`. */
  predicate IsEntry(line: String) {
    line != [] && (IsDigit(line[0]) || StartsWith(line, "-"))
  }

  /** What one line contributes to the list: a stripped entry line yields its insight text, as
      the pattern is written (`InsightText`), when that is not empty. */
  function LineInsights(raw: String): (r: seq<String>)
    ensures |r| <= 1
  {
    var line := Strip(raw);
    if IsEntry(line) && InsightText(line) != [] then [InsightText(line)] else []
  }

  /** The insights of a reply, in line order, cut to `maxInsights` (a Python slice). */
  function ReplyInsights(text: String, maxInsights: int): (r: seq<String>)
    ensures maxInsights >= 0 ==> |r| <= maxInsights
  {
    Take(FlatMap(LineInsights, SplitOn(text, '\n')), maxInsights)
  }

  /** A stripped line is an entry exactly when its first character is a digit or `-`. */
  lemma EntryIff(line: String)
    ensures IsEntry(line) <==> line != [] && (IsDigit(line[0]) || line[0] == '-')
  {
    if line != [] {
      assert StartsWith(line, "-") <==> line[..1] == [line[0]] == "-";
    }
  }

  /** `extract_key_insights` parsing the stripped reply text: the insights of its lines, cut to
      `maxInsights`. No insight it returns holds a hyphen. */
  method ParseInsights(text: String, maxInsights: int) returns (insights: seq<String>)
    ensures insights == ReplyInsights(text, maxInsights)
    ensures forall s :: s in insights ==> s != [] && IsStripped(s) && '-' !in s
  {
    var found := CollectInsights(SplitOn(text, '\n'));
    insights := Take(found, maxInsights);
    ReplyInsightsShape(text, maxInsights);
  }

  /** The loop over the reply's lines, keeping each line's insight in line order. */
  method CollectInsights(lines: seq<String>) returns (insights: seq<String>)
    ensures insights == FlatMap(LineInsights, lines)
  {
    insights := [];
    for i := 0 to |lines|
      invariant insights == FlatMap(LineInsights, lines[..i])
    {
      FlatMapStep(LineInsights, lines, i);
      var found := ParseInsightLine(lines[i]);
      insights := insights + found;
    }
    assert lines[..|lines|] == lines;
  }

  /** `extract_key_insights` once the reply is in: a delivered reply is parsed, anything else
      gives no insights. */
  method ExtractKeyInsights(reply: Reply, maxInsights: int) returns (insights: seq<String>)
    ensures Delivered(reply) ==> insights == ReplyInsights(Strip(Content(reply)), maxInsights)
    ensures !Delivered(reply) ==> insights == []
    ensures forall s :: s in insights ==> s != [] && IsStripped(s) && '-' !in s
  {
    if Delivered(reply) {
      insights := ParseInsights(Strip(Content(reply)), maxInsights);
    } else {
      insights := [];
    }
  }

  /** The loop body: a stripped entry line gives its insight text when that is not empty. */
  method ParseInsightLine(raw: String) returns (found: seq<String>)
    ensures found == LineInsights(raw)
  {
    var line := Strip(raw);
    found := [];
    if line != [] && (IsDigit(line[0]) || StartsWith(line, "-")) {
      var insight := InsightText(line);
      if insight != [] {
        found := [insight];
      }
    }
  }

  /** One line's insight, when there is one, is non-empty, stripped and free of hyphens, and
      comes from a line that starts with a digit or `-`. */
  lemma LineInsightsShape(raw: String)
    ensures forall s :: s in LineInsights(raw) ==> s != [] && IsStripped(s) && '-' !in s
    ensures LineInsights(raw) != [] ==> IsDigit(Strip(raw)[0]) || Strip(raw)[0] == '-'
  {
    var line := Strip(raw);
    EntryIff(line);
    if IsEntry(line) && InsightText(line) != [] {
      assert LineInsights(raw) == [InsightText(line)];
    } else {
      assert LineInsights(raw) == [];
    }
  }

  /** `s` is the insight of one of `lines`. */
  predicate FromSomeLine(lines: seq<String>, s: String) {
    exists i :: 0 <= i < |lines| && s in LineInsights(lines[i])
  }

  /** An insight drawn from a list of lines is the insight of one of them, and so is non-empty,
      stripped and free of hyphens. */
  lemma InsightOfLines(lines: seq<String>, s: String)
    requires s in FlatMap(LineInsights, lines)
    ensures s != [] && IsStripped(s) && '-' !in s
    ensures FromSomeLine(lines, s)
  {
    FlatMapMembers(LineInsights, lines, s);
    var i :| 0 <= i < |lines| && s in LineInsights(lines[i]);
    LineInsightsShape(lines[i]);
  }

  /** Every insight is non-empty, stripped and free of hyphens, and is the insight of one of the
      reply's lines (which then starts with a digit or `-`). */
  lemma ReplyInsightsShape(text: String, maxInsights: int)
    ensures forall s :: s in ReplyInsights(text, maxInsights) ==> s != [] && IsStripped(s) && '-' !in s
    ensures forall s :: s in ReplyInsights(text, maxInsights) ==> FromSomeLine(SplitOn(text, '\n'), s)
  {
    var lines := SplitOn(text, '\n');
    var all := FlatMap(LineInsights, lines);
    var kept := ReplyInsights(text, maxInsights);
    assert kept == all[..|kept|];
    forall s | s in kept
      ensures s != [] && IsStripped(s) && '-' !in s
      ensures FromSomeLine(lines, s)
    {
      assert s in all;
      InsightOfLines(lines, s);
    }
  }

  /** There are at most `maxInsights` insights, the first ones in line order. */
  lemma ReplyInsightsCount(text: String, maxInsights: int)
    ensures maxInsights >= 0 ==> |ReplyInsights(text, maxInsights)| <= maxInsights
    ensures ReplyInsights(text, maxInsights) ==
      FlatMap(LineInsights, SplitOn(text, '\n'))[..|ReplyInsights(text, maxInsights)|]
  {
  }

  /** A line that starts with neither a digit nor `-` gives nothing. */
  lemma UnmarkedLineIgnored(raw: String)
    requires Strip(raw) == [] || (!IsDigit(Strip(raw)[0]) && Strip(raw)[0] != '-')
    ensures LineInsights(raw) == []
  {
    EntryIff(Strip(raw));
  }

  /** Stripping what `TrimStart` cannot remove leaves the rest alone. */
  lemma TrimStartPast(a: String, b: String, drop: char -> bool)
    requires forall i :: 0 <= i < |a| ==> drop(a[i])
    requires b == [] || !drop(b[0])
    ensures TrimStart(a + b, drop) == b
    decreases |a|
  {
    if a != [] {
      assert (a + b)[1..] == a[1..] + b;
      TrimStartPast(a[1..], b, drop);
    } else {
      assert a + b == b;
    }
  }

  /** Text without hyphens passes through the hyphen removal unchanged. */
  lemma DropDashesPast(a: String, rest: String)
    requires '-' !in a
    ensures DropDashes(a + rest) == a + DropDashes(rest)
    decreases |a|
  {
    if a != [] {
      var s := a + rest;
      calc {
        DropDashes(s);
      == { assert s[0] == a[0] != '-'; }
        [a[0]] + DropDashes(s[1..]);
      == { assert s[1..] == a[1..] + rest; DropDashesPast(a[1..], rest); }
        [a[0]] + (a[1..] + DropDashes(rest));
      == { assert a == [a[0]] + a[1..]; }
        a + DropDashes(rest);
      }
    } else {
      assert a + rest == rest;
    }
  }

  /** The unanchored alternative deletes the hyphens inside an insight: a bullet "- a-b", with
      `a` and `b` words, comes out as "ab". */
  lemma HyphenatedInsight(a: String, b: String)
    requires a != [] && b != []
    requires '-' !in a && '-' !in b
    requires forall i :: 0 <= i < |a| ==> !IsSpace(a[i])
    requires forall i :: 0 <= i < |b| ==> !IsSpace(b[i])
    ensures InsightText("- " + a + "-" + b) == a + b
  {
    var line := "- " + a + "-" + b;
    assert !IsDigit(line[0]);
    HyphensDropped(a, b);
    StripOfStripped(a + b);
  }

  /** Removing each hyphen with the whitespace after it joins the two words of "- a-b". */
  lemma HyphensDropped(a: String, b: String)
    requires a != [] && b != []
    requires '-' !in a && '-' !in b
    requires !IsSpace(a[0]) && !IsSpace(b[0])
    ensures DropDashes("- " + a + "-" + b) == a + b
  {
    BulletOfHyphenated(a, b);
    LeadingDashDropped("- " + a + "-" + b, a + ("-" + b));
    InnerDashDropped(a, b);
  }

  /** "- a-b" is the bullet marker followed by the hyphenated words. */
  lemma BulletOfHyphenated(a: String, b: String)
    requires a != [] && !IsSpace(a[0])
    ensures var line := "- " + a + "-" + b;
      |line| >= 2 && line[0] == '-' && line[1] == ' ' && line[2..] == a + ("-" + b)
    ensures !IsSpace((a + ("-" + b))[0])
  {
  }

  /** A leading "- " goes with the hyphen. */
  lemma LeadingDashDropped(line: String, rest: String)
    requires |line| >= 2 && line[0] == '-' && line[1] == ' ' && line[2..] == rest
    requires rest != [] && !IsSpace(rest[0])
    ensures DropDashes(line) == DropDashes(rest)
  {
    var after := line[1..];
    assert after[0] == ' ' && after[1..] == rest;
    assert TrimStart(after, IsSpace) == TrimStart(rest, IsSpace) == rest;
  }

  /** A hyphen between two hyphen-free words disappears. */
  lemma InnerDashDropped(a: String, b: String)
    requires '-' !in a && '-' !in b
    requires b != [] && !IsSpace(b[0])
    ensures DropDashes(a + ("-" + b)) == a + b
  {
    DropDashesPast(a, "-" + b);
    var tail := "-" + b;
    assert tail[0] == '-' && tail[1..] == b;
    TrimStartPast([], b, IsSpace);
    assert [] + b == b;
    DropDashesPast(b, []);
    assert b + [] == b;
  }

  /** The insight text with the pattern anchored, `^(?:\d+\.?\s*|-\s*)`: only the leading number
      or bullet is removed. */
  function InsightTextAnchored(line: String): String {
    Strip(DropLeadingMarker(line))
  }

  /** The single leading match of `^(?:\d+\.?\s*|-\s*)`, if any, removed. */
  function DropLeadingMarker(line: String): String {
    if line != [] && IsDigit(line[0]) then DropLeadingNumber(line)
    else if line != [] && line[0] == '-' then TrimStart(line[1..], IsSpace)
    else line
  }

  /** With the anchored pattern a bullet gives back its text unchanged, hyphens included. */
  lemma AnchoredBulletKeepsText(t: String)
    requires IsStripped(t)
    ensures InsightTextAnchored("- " + t) == t
  {
    BulletIsLeadingMarker(t);
    StripOfStripped(t);
  }

  /** On a bullet line the leading marker is the hyphen and the space. */
  lemma BulletIsLeadingMarker(t: String)
    requires IsStripped(t)
    ensures DropLeadingMarker("- " + t) == t
  {
    var bullet := "- " + t;
    assert bullet[0] == '-' && bullet[1..] == " " + t;
    SpaceThenText(t);
  }

  /** A single space before text that starts with no whitespace is all that `TrimStart` removes. */
  lemma SpaceThenText(t: String)
    requires t == [] || !IsSpace(t[0])
    ensures TrimStart(" " + t, IsSpace) == t
  {
    var spaced := " " + t;
    assert spaced[0] == ' ' && spaced[1..] == t;
  }

  /** The number, the dot and the space before stripped text are all that the leading-number
      alternative removes. */
  lemma DropNumberBeforeText(digits: String, t: String)
    requires digits != [] && forall i :: 0 <= i < |digits| ==> IsDigit(digits[i])
    requires IsStripped(t)
    ensures DropLeadingNumber(digits + (". " + t)) == t
  {
    var rest := ". " + t;
    var line := digits + rest;
    calc {
      DropLeadingNumber(line);
    == { assert line[0] == digits[0] && rest[0] == '.'; TrimStartPast(digits, rest, IsDigit); }
      TrimStart(rest[1..], IsSpace);
    == { assert rest[1..] == " " + t; SpaceThenText(t); }
      t;
    }
  }

  /** With the anchored pattern a numbered line "<digits>. <text>" gives back its text unchanged,
      whatever the text starts with. */
  lemma AnchoredNumberKeepsText(digits: String, t: String)
    requires digits != [] && forall i :: 0 <= i < |digits| ==> IsDigit(digits[i])
    requires IsStripped(t)
    ensures InsightTextAnchored(digits + ". " + t) == t
  {
    assert digits + ". " + t == digits + (". " + t);
    NumberIsLeadingMarker(digits, t);
    StripOfStripped(t);
  }

  /** On a numbered line the leading marker is the number, the dot and the space. */
  lemma NumberIsLeadingMarker(digits: String, t: String)
    requires digits != [] && forall i :: 0 <= i < |digits| ==> IsDigit(digits[i])
    requires IsStripped(t)
    ensures DropLeadingMarker(digits + (". " + t)) == t
  {
    var numbered := digits + (". " + t);
    assert numbered[0] == digits[0];
    DropNumberBeforeText(digits, t);
  }

  /** The anchored version keeps the hyphens the written one drops. */
  lemma AnchoredKeepsHyphen(a: String, b: String)
    requires a != [] && b != []
    requires forall i :: 0 <= i < |a| ==> !IsSpace(a[i])
    requires forall i :: 0 <= i < |b| ==> !IsSpace(b[i])
    ensures InsightTextAnchored("- " + a + "-" + b) == a + "-" + b
  {
    var t := a + "-" + b;
    assert IsStripped(t);
    assert "- " + a + "-" + b == "- " + t;
    AnchoredBulletKeepsText(t);
  }

  /** The corrected parser: one line's insight taken with the anchored pattern. */
  function LineInsightsAnchored(raw: String): (r: seq<String>)
    ensures |r| <= 1
  {
    var line := Strip(raw);
    if IsEntry(line) && InsightTextAnchored(line) != [] then [InsightTextAnchored(line)] else []
  }

  /** The corrected parser over a reply, in line order, cut to `maxInsights`. */
  function ReplyInsightsAnchored(text: String, maxInsights: int): (r: seq<String>)
    ensures maxInsights >= 0 ==> |r| <= maxInsights
  {
    Take(FlatMap(LineInsightsAnchored, SplitOn(text, '\n')), maxInsights)
  }

  /** As written, a one-line reply "- a-b" gives the single insight "ab": the hyphen between the
      words is lost. */
  lemma HyphenatedReplyLosesHyphen(a: String, b: String, maxInsights: int)
    requires a != [] && b != [] && NoSpace(a) && NoSpace(b)
    requires '-' !in a && '-' !in b
    requires maxInsights >= 1
    ensures ReplyInsights("- " + a + "-" + b, maxInsights) == [a + b]
  {
    var line := "- " + a + "-" + b;
    HyphenatedLine(a, b, line);
    OneLineReply(LineInsights, line);
  }

  /** As written, the line "- a-b" holds no line break and contributes "ab". */
  lemma HyphenatedLine(a: String, b: String, line: String)
    requires a != [] && b != [] && NoSpace(a) && NoSpace(b)
    requires '-' !in a && '-' !in b
    requires line == "- " + a + "-" + b
    ensures '\n' !in line && LineInsights(line) == [a + b]
  {
    BulletLineShape(a, b, line);
    HyphenatedInsight(a, b);
    BulletIsEntry(line);
  }

  /** Corrected, a one-line reply "- a-b" gives the single insight "a-b". */
  lemma HyphenatedBulletInsight(a: String, b: String, maxInsights: int)
    requires a != [] && b != [] && NoSpace(a) && NoSpace(b)
    requires maxInsights >= 1
    ensures ReplyInsightsAnchored("- " + a + "-" + b, maxInsights) == [a + "-" + b]
  {
    var line := "- " + a + "-" + b;
    HyphenatedAnchoredLine(a, b, line);
    OneLineReply(LineInsightsAnchored, line);
  }

  /** Corrected, the line "- a-b" holds no line break and contributes "a-b". */
  lemma HyphenatedAnchoredLine(a: String, b: String, line: String)
    requires a != [] && b != [] && NoSpace(a) && NoSpace(b)
    requires line == "- " + a + "-" + b
    ensures '\n' !in line && LineInsightsAnchored(line) == [a + "-" + b]
  {
    BulletLineShape(a, b, line);
    AnchoredKeepsHyphen(a, b);
    BulletIsEntry(line);
  }

  /** A reply without line breaks is parsed as its single line. */
  lemma OneLineReply(f: String -> seq<String>, line: String)
    requires '\n' !in line
    ensures FlatMap(f, SplitOn(line, '\n')) == f(line)
  {
    SplitOnAbsent(line, '\n');
    calc {
      FlatMap(f, [line]);
    == { assert [line][..0] == []; }
      FlatMap(f, []) + f(line);
    ==
      f(line);
    }
  }

  /** "- a-b" is one stripped line starting with a hyphen. */
  lemma BulletLineShape(a: String, b: String, line: String)
    requires a != [] && b != [] && NoSpace(a) && NoSpace(b)
    requires line == "- " + a + "-" + b
    ensures '\n' !in line && IsStripped(line) && line[0] == '-'
  {
    assert line == ['-', ' '] + a + ['-'] + b;
    forall i | 0 <= i < |line| ensures line[i] != '\n' {
      assert IsSpace('\n');
      if 2 <= i < 2 + |a| {
        assert line[i] == a[i - 2];
      } else if 3 + |a| <= i {
        assert line[i] == b[i - 3 - |a|];
      }
    }
    assert line[|line| - 1] == b[|b| - 1];
  }

  /** A stripped line starting with `-` is an entry and is its own stripped form. */
  lemma BulletIsEntry(line: String)
    requires line != [] && IsStripped(line) && line[0] == '-'
    ensures Strip(line) == line && IsEntry(line)
  {
    StripOfStripped(line);
    EntryIff(line);
  }

  /** On a reply without hyphens the corrected parser and the written one agree: the finding
      only changes insights that hold a hyphen. */
  lemma AnchoredAgreesWithoutHyphens(text: String, maxInsights: int)
    requires '-' !in text
    ensures ReplyInsightsAnchored(text, maxInsights) == ReplyInsights(text, maxInsights)
  {
    var lines := SplitOn(text, '\n');
    forall i | 0 <= i < |lines|
      ensures LineInsightsAnchored(lines[i]) == LineInsights(lines[i])
    {
      LineOfText(text, lines, i);
      SameLineInsights(lines[i]);
    }
    FlatMapAgree(LineInsightsAnchored, LineInsights, lines);
  }

  /** A line of a text holds no character the text does not hold. */
  lemma LineOfText(text: String, lines: seq<String>, i: nat)
    requires lines == SplitOn(text, '\n') && i < |lines|
    ensures '-' in lines[i] ==> '-' in text
  {
    JoinSplitOn(text, '\n');
    JoinHolds(lines, i);
  }

  /** Each piece's characters are characters of the joined text. */
  lemma {:induction false} JoinHolds(ws: seq<String>, i: nat)
    requires i < |ws|
    ensures '-' in ws[i] ==> '-' in Join("\n", ws)
  {
    if '-' in ws[i] && |ws| > 1 {
      var j :| 0 <= j < |ws[i]| && ws[i][j] == '-';
      var joined := Join("\n", ws);
      assert joined == ws[0] + "\n" + Join("\n", ws[1..]);
      if i == 0 {
        assert joined[j] == '-';
      } else {
        JoinHolds(ws[1..], i - 1);
        var rest := Join("\n", ws[1..]);
        var k :| 0 <= k < |rest| && rest[k] == '-';
        assert joined[|ws[0]| + 1 + k] == '-';
      }
    }
  }

  /** On a line without hyphens both patterns remove the same leading number and nothing else. */
  lemma SameLineInsights(raw: String)
    requires '-' !in raw
    ensures LineInsightsAnchored(raw) == LineInsights(raw)
  {
    var line := Strip(raw);
    StripKeepsOut(raw, '-');
    EntryIff(line);
    if IsEntry(line) {
      SameInsightText(line);
    }
  }

  /** On a numbered line without hyphens both patterns give the same text. */
  lemma SameInsightText(line: String)
    requires line != [] && IsDigit(line[0]) && '-' !in line
    ensures InsightTextAnchored(line) == InsightText(line)
  {
    var number := DropLeadingNumber(line);
    assert DropLeadingMarker(line) == number;
    NoHyphenAfterNumber(line);
    DropDashesPast(number, []);
    assert number + [] == number;
  }

  /** Stripping introduces no character. */
  lemma StripKeepsOut(raw: String, c: char)
    requires c !in raw
    ensures c !in Strip(raw)
  {
    var line := Strip(raw);
    var k := StripIsSlice(raw);
    forall j | 0 <= j < |line| ensures line[j] != c {
      assert line[j] == raw[k + j];
    }
  }

  /** A suffix holds no character its whole does not. */
  lemma SuffixKeepsOut(s: String, r: String, c: char)
    requires |r| <= |s| && r == s[|s| - |r|..] && c !in s
    ensures c !in r
  {
    forall j | 0 <= j < |r| ensures r[j] != c {
      assert r[j] == s[|s| - |r| + j];
    }
  }

  /** Removing a leading number introduces no hyphen. */
  lemma NoHyphenAfterNumber(line: String)
    requires '-' !in line
    ensures '-' !in DropLeadingNumber(line)
  {
    SuffixKeepsOut(line, DropLeadingNumber(line), '-');
  }

  // ---------------------------------------------------------------- summary

  const SummaryFailed: String := "Summary generation failed."

  /** `generate_summary` once the reply is in: the stripped reply cut to `maxLength` characters
      (a Python slice), or the failure notice for any other outcome. */
  function GenerateSummary(reply: Reply, maxLength: int): (summary: String)
    ensures Delivered(reply) ==> |summary| <= |Strip(Content(reply))|
    ensures Delivered(reply) && maxLength >= 0 ==> |summary| <= maxLength
    ensures Delivered(reply) && maxLength >= 0 ==>
      |summary| == if maxLength <= |Strip(Content(reply))| then maxLength else |Strip(Content(reply))|
    ensures Delivered(reply) && maxLength < 0 ==>
      |summary| == if -maxLength <= |Strip(Content(reply))| then |Strip(Content(reply))| + maxLength else 0
    ensures Delivered(reply) ==> summary == Strip(Content(reply))[..|summary|]
    ensures Delivered(reply) && 0 <= |Strip(Content(reply))| <= maxLength ==> summary == Strip(Content(reply))
    ensures !Delivered(reply) ==> summary == SummaryFailed
  {
    if Delivered(reply) then Take(Strip(Content(reply)), maxLength) else SummaryFailed
  }
}
