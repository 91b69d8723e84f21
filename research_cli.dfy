/** The topic normaliser of the command-line entry point (`clean_topic` in main.py). */
module ResearchCli {
  import opened Text

  /** The per-word substitution of `clean_topic`: `"` becomes `'` and every backtick is deleted. */
  function Unquote(w: String): String {
    DeleteChar(ReplaceChar(w, '"', '\''), '`')
  }

  function UnquoteAll(ws: seq<String>): (r: seq<String>)
    ensures |r| == |ws|
    ensures forall k :: 0 <= k < |ws| ==> r[k] == Unquote(ws[k])
  {
    seq(|ws|, k requires 0 <= k < |ws| => Unquote(ws[k]))
  }

  /** `clean_topic`: line breaks and tabs become spaces, whitespace runs collapse to one space,
      `"` becomes `'`, backticks are deleted, whitespace collapses again and the ends are stripped. */
  function CleanTopic(topic: String): (r: String)
    ensures IsStripped(r)
  {
    var noBreaks := ReplaceChar(ReplaceChar(ReplaceChar(topic, '\n', ' '), '\r', ' '), '\t', ' ');
    var collapsed := Join(" ", Words(noBreaks));
    var unquoted := DeleteChar(ReplaceChar(collapsed, '"', '\''), '`');
    Strip(Join(" ", Words(unquoted)))
  }

  /** What a cleaned topic looks like: space-normal, and free of `"` and backticks. */
  predicate IsCleanTopic(s: String) {
    IsSpaceNormal(s) && '"' !in s && '`' !in s
  }

  lemma {:induction false} UnquoteAppend(a: String, b: String)
    ensures Unquote(a + b) == Unquote(a) + Unquote(b)
  {
    ReplaceCharAppend(a, b, '"', '\'');
    DeleteCharAppend(ReplaceChar(a, '"', '\''), ReplaceChar(b, '"', '\''), '`');
  }

  /** The substitution commutes with a single-space join. */
  lemma {:induction false} UnquoteJoin(ws: seq<String>)
    ensures Unquote(Join(" ", ws)) == Join(" ", UnquoteAll(ws))
  {
    if |ws| > 1 {
      UnquoteJoin(ws[1..]);
      UnquoteAppend(ws[0] + " ", Join(" ", ws[1..]));
      UnquoteAppend(ws[0], " ");
      assert Unquote(" ") == " ";
      assert UnquoteAll(ws)[1..] == UnquoteAll(ws[1..]);
    } else if |ws| == 1 {
      assert UnquoteAll(ws) == [Unquote(ws[0])];
    }
  }

  lemma {:induction false} UnquoteNoSpace(w: String)
    requires NoSpace(w)
    ensures NoSpace(Unquote(w))
    ensures '"' !in Unquote(w) && '`' !in Unquote(w)
  {
    var r := ReplaceChar(w, '"', '\'');
    forall c | c in Unquote(w) ensures !IsSpace(c) && c != '"' {
      DeleteCharFrom(r, '`', c);
    }
  }

  /** The topic after the first collapse is the single-space join of the input's words. */
  lemma {:induction false} CollapsedWords(topic: String)
    ensures Words(ReplaceChar(ReplaceChar(ReplaceChar(topic, '\n', ' '), '\r', ' '), '\t', ' ')) == Words(topic)
  {
    var t := ReplaceChar(ReplaceChar(ReplaceChar(topic, '\n', ' '), '\r', ' '), '\t', ' ');
    WordsSameSpaces(topic, t);
  }

  /** Closed form: the cleaned topic joins, with single spaces, the input's whitespace-separated
      words after the quote substitution, leaving out the words that became empty. */
  lemma {:induction false} CleanTopicClosedForm(topic: String)
    ensures CleanTopic(topic) == Join(" ", NonEmpty(UnquoteAll(Words(topic))))
  {
    var ws := Words(topic);
    CollapsedWords(topic);
    var collapsed := Join(" ", ws);
    UnquoteJoin(ws);
    var us := UnquoteAll(ws);
    forall k | 0 <= k < |us| ensures NoSpace(us[k]) {
      UnquoteNoSpace(ws[k]);
    }
    WordsOfJoin(us);
    var kept := NonEmpty(us);
    NonEmptyNoSpace(us);
    JoinSpaceNormal(kept);
    StripOfStripped(Join(" ", kept));
  }

  lemma {:induction false} NonEmptyNoSpace(ws: seq<String>)
    requires forall k :: 0 <= k < |ws| ==> NoSpace(ws[k])
    ensures forall k :: 0 <= k < |NonEmpty(ws)| ==> NoSpace(NonEmpty(ws)[k])
  {
    if ws != [] {
      NonEmptyNoSpace(ws[1..]);
    }
  }

  lemma {:induction false} NonEmptyAvoids(ws: seq<String>, c: char)
    requires forall k :: 0 <= k < |ws| ==> c !in ws[k]
    ensures forall k :: 0 <= k < |NonEmpty(ws)| ==> c !in NonEmpty(ws)[k]
  {
    if ws != [] {
      NonEmptyAvoids(ws[1..], c);
    }
  }

  lemma {:induction false} JoinAvoids(ws: seq<String>, c: char)
    requires c != ' '
    requires forall k :: 0 <= k < |ws| ==> c !in ws[k]
    ensures c !in Join(" ", ws)
  {
    if |ws| > 1 {
      JoinAvoids(ws[1..], c);
    }
  }

  /** The cleaned topic has no line break, tab, `"` or backtick, no leading or trailing
      whitespace and no two consecutive spaces. */
  lemma {:induction false} CleanTopicIsClean(topic: String)
    ensures IsCleanTopic(CleanTopic(topic))
    ensures '\n' !in CleanTopic(topic) && '\r' !in CleanTopic(topic) && '\t' !in CleanTopic(topic)
  {
    CleanTopicClosedForm(topic);
    var ws := Words(topic);
    var us := UnquoteAll(ws);
    forall k | 0 <= k < |us| ensures NoSpace(us[k]) && '"' !in us[k] && '`' !in us[k] {
      UnquoteNoSpace(ws[k]);
    }
    var kept := NonEmpty(us);
    NonEmptyNoSpace(us);
    NonEmptyAvoids(us, '"');
    NonEmptyAvoids(us, '`');
    JoinSpaceNormal(kept);
    JoinAvoids(kept, '"');
    JoinAvoids(kept, '`');
    var r := Join(" ", kept);
    assert IsSpace('\n') && IsSpace('\r') && IsSpace('\t');
  }

  /** The cleaned topics are exactly the fixed points of `clean_topic`. */
  lemma {:induction false} CleanTopicFixedPoints(s: String)
    ensures CleanTopic(s) == s <==> IsCleanTopic(s)
  {
    CleanTopicIsClean(s);
    if IsCleanTopic(s) {
      CleanTopicClosedForm(s);
      UnquoteAllOfClean(s);
      NonEmptyOfWords(Words(s));
      SpaceNormalIsJoin(s);
    }
  }

  /** The words of a cleaned topic hold nothing for the substitution to change. */
  lemma UnquoteAllOfClean(s: String)
    requires IsCleanTopic(s)
    ensures UnquoteAll(Words(s)) == Words(s)
  {
    var ws := Words(s);
    WordsAvoid(s, '"');
    WordsAvoid(s, '`');
    forall k | 0 <= k < |ws| ensures Unquote(ws[k]) == ws[k] {
      assert ReplaceChar(ws[k], '"', '\'') == ws[k];
      DeleteCharAbsent(ws[k], '`');
    }
  }

  /** `clean_topic` is idempotent. */
  lemma CleanTopicIdempotent(topic: String)
    ensures CleanTopic(CleanTopic(topic)) == CleanTopic(topic)
  {
    CleanTopicIsClean(topic);
    CleanTopicFixedPoints(CleanTopic(topic));
  }

  /** Re-splitting the cleaned topic gives the input's words after the substitution, minus the
      words that consisted only of backticks. */
  lemma CleanTopicKeepsWords(topic: String)
    ensures Words(CleanTopic(topic)) == NonEmpty(UnquoteAll(Words(topic)))
  {
    CleanTopicClosedForm(topic);
    var us := UnquoteAll(Words(topic));
    forall k | 0 <= k < |us| ensures NoSpace(us[k]) {
      UnquoteNoSpace(Words(topic)[k]);
    }
    var kept := NonEmpty(us);
    NonEmptyNoSpace(us);
    WordsOfJoin(kept);
    NonEmptyOfWords(kept);
  }

  /** Input made only of whitespace cleans to the empty string. */
  lemma CleanTopicBlank(topic: String)
    requires forall i :: 0 <= i < |topic| ==> IsSpace(topic[i])
    ensures CleanTopic(topic) == ""
  {
    CleanTopicClosedForm(topic);
    BlankHasNoWords(topic);
  }

  lemma {:induction false} BlankHasNoWords(s: String)
    requires forall i :: 0 <= i < |s| ==> IsSpace(s[i])
    ensures Words(s) == []
    decreases |s|
  {
    if s != [] {
      BlankHasNoWords(s[1..]);
    }
  }
}
