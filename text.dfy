/** ASCII models of the Python `str` operations the pipeline relies on:
    `isspace`, `lower`, `strip`, `split`, `join`, `in`, `startswith` and slicing. */
module Text {

  type String = seq<char>

  /** `str.isspace()` on ASCII: space, \t \n \v \f \r and the separators 0x1C-0x1F. */
  predicate IsSpace(c: char) {
    c == ' ' || (9 <= c as int <= 13) || (28 <= c as int <= 31)
  }

  predicate IsUpper(c: char) { 'A' <= c <= 'Z' }

  predicate IsLowerLetter(c: char) { 'a' <= c <= 'z' }

  predicate IsDigit(c: char) { '0' <= c <= '9' }

  /** `str.lower()` on one ASCII character. */
  function LowerChar(c: char): (d: char)
    ensures IsUpper(c) ==> IsLowerLetter(d) && d as int == c as int + 32
    ensures !IsUpper(c) ==> d == c
  {
    if IsUpper(c) then (c as int + 32) as char else c
  }

  /** `str.lower()`: lower-cases every ASCII letter and keeps the length. */
  function Lower(s: String): (r: String)
    ensures |r| == |s|
    ensures forall i :: 0 <= i < |s| ==> r[i] == LowerChar(s[i])
  {
    seq(|s|, i requires 0 <= i < |s| => LowerChar(s[i]))
  }

  /** `str.replace(a, b)` for single characters. */
  function ReplaceChar(s: String, a: char, b: char): (r: String)
    ensures |r| == |s|
    ensures forall i :: 0 <= i < |s| ==> r[i] == (if s[i] == a then b else s[i])
  {
    seq(|s|, i requires 0 <= i < |s| => if s[i] == a then b else s[i])
  }

  /** `str.replace(a, '')` for a single character. */
  function DeleteChar(s: String, a: char): (r: String)
    ensures a !in r
    ensures |r| <= |s|
  {
    if s == [] then []
    else (if s[0] == a then [] else [s[0]]) + DeleteChar(s[1..], a)
  }

  /** Removes the leading characters satisfying `drop` (`str.lstrip(chars)`). */
  function TrimStart(s: String, drop: char -> bool): (r: String)
    ensures r == [] || !drop(r[0])
    ensures |r| <= |s| && r == s[|s| - |r|..]
  {
    if s != [] && drop(s[0]) then TrimStart(s[1..], drop) else s
  }

  /** Everything `TrimStart` removes satisfies `drop`. */
  lemma {:induction false} TrimStartDrops(s: String, drop: char -> bool)
    ensures AllSatisfy(s[..|s| - |TrimStart(s, drop)|], drop)
    decreases |s|
  {
    if s != [] && drop(s[0]) {
      var r := TrimStart(s[1..], drop);
      assert TrimStart(s, drop) == r;
      TrimStartDrops(s[1..], drop);
      var removed := s[..|s| - |r|];
      assert removed[0] == s[0] && removed[1..] == s[1..][..|s| - 1 - |r|];
    }
  }

  /** Removes the trailing characters satisfying `drop` (`str.rstrip(chars)`). */
  function TrimEnd(s: String, drop: char -> bool): (r: String)
    ensures r == [] || !drop(r[|r| - 1])
    ensures |r| <= |s| && r == s[..|r|]
  {
    if s != [] && drop(s[|s| - 1]) then TrimEnd(s[..|s| - 1], drop) else s
  }

  /** Everything `TrimEnd` removes satisfies `drop`. */
  lemma {:induction false} TrimEndDrops(s: String, drop: char -> bool)
    ensures AllSatisfy(s[|TrimEnd(s, drop)|..], drop)
    decreases |s|
  {
    if s != [] && drop(s[|s| - 1]) {
      var r := TrimEnd(s[..|s| - 1], drop);
      TrimEndDrops(s[..|s| - 1], drop);
      assert s[|r|..] == s[..|s| - 1][|r|..] + [s[|s| - 1]];
      AllSatisfyAppend(s[..|s| - 1][|r|..], s[|s| - 1], drop);
    } else {
      assert s[|s|..] == [];
    }
  }

  /** Removes both ends (`str.strip(chars)`); whatever is left starts and ends with a kept character. */
  function Trim(s: String, drop: char -> bool): (r: String)
    ensures r == [] || (!drop(r[0]) && !drop(r[|r| - 1]))
    ensures |r| <= |s|
  {
    var t := TrimStart(s, drop);
    var r := TrimEnd(t, drop);
    assert r != [] ==> r[0] == t[0];
    r
  }

  /** What `Trim` keeps is one slice of `s`, and everything it drops on either side satisfies
      `drop`. */
  lemma TrimIsSlice(s: String, drop: char -> bool) returns (k: nat)
    ensures TrimmedAt(Trim(s, drop), s, drop, k)
  {
    var t := TrimStart(s, drop);
    var r := TrimEnd(t, drop);
    assert Trim(s, drop) == r;
    k := |s| - |t|;
    assert AllSatisfy(s[..k], drop) by {
      TrimStartDrops(s, drop);
    }
    assert AllSatisfy(t[|r|..], drop) by {
      TrimEndDrops(t, drop);
    }
    TrimmedBetween(s, t, r, k, drop);
  }

  /** A prefix `r` of the suffix `t` of `s` at `k`, with the dropped parts satisfying `drop`. */
  lemma TrimmedBetween(s: String, t: String, r: String, k: nat, drop: char -> bool)
    requires k <= |s| && t == s[k..] && |r| <= |t| && r == t[..|r|]
    requires AllSatisfy(s[..k], drop) && AllSatisfy(t[|r|..], drop)
    ensures TrimmedAt(r, s, drop, k)
  {
    SliceOfSuffix(s, k, |r|);
  }

  /** Every character of `s` satisfies `p`. */
  predicate AllSatisfy(s: String, p: char -> bool)
    decreases |s|
  {
    s == [] || (p(s[0]) && AllSatisfy(s[1..], p))
  }

  lemma {:induction false} AllSatisfyAll(s: String, p: char -> bool)
    requires AllSatisfy(s, p)
    ensures forall i :: 0 <= i < |s| ==> p(s[i])
    decreases |s|
  {
    if s != [] {
      AllSatisfyAll(s[1..], p);
      forall i | 1 <= i < |s| ensures p(s[i]) {
        assert s[1..][i - 1] == s[i];
      }
    }
  }

  lemma {:induction false} AllSatisfyAppend(s: String, c: char, p: char -> bool)
    requires AllSatisfy(s, p) && p(c)
    ensures AllSatisfy(s + [c], p)
    decreases |s|
  {
    if s != [] {
      assert (s + [c])[1..] == s[1..] + [c];
      AllSatisfyAppend(s[1..], c, p);
    }
  }

  /** `r` is the slice of `s` at `k`, and everything before and after it satisfies `drop`. */
  predicate TrimmedAt(r: String, s: String, drop: char -> bool, k: nat) {
    k + |r| <= |s| && r == s[k..k + |r|] && AllSatisfy(s[..k], drop) && AllSatisfy(s[k + |r|..], drop)
  }


  /** No leading and no trailing whitespace. */
  predicate IsStripped(s: String) {
    s == [] || (!IsSpace(s[0]) && !IsSpace(s[|s| - 1]))
  }

  /** Slicing a suffix of `s` again is slicing `s`. */
  lemma SliceOfSuffix(s: String, k: nat, n: nat)
    requires k + n <= |s|
    ensures s[k..][..n] == s[k..k + n] && s[k..][n..] == s[k + n..]
  {
  }

  /** `str.strip()`. */
  function Strip(s: String): (r: String)
    ensures IsStripped(r)
    ensures |r| <= |s|
  {
    Trim(s, IsSpace)
  }

  /** `str.strip()` removes whitespace and only whitespace: the result is the slice of `s` at
      `k`, everything before and after it is whitespace, and it has none at its own ends. */
  lemma StripIsSlice(s: String) returns (k: nat)
    ensures TrimmedAt(Strip(s), s, IsSpace, k) && IsStripped(Strip(s))
  {
    k := TrimIsSlice(s, IsSpace);
  }

  lemma {:induction false} StripOfStripped(s: String)
    requires IsStripped(s)
    ensures Strip(s) == s
  {
  }

  /** Python's `s.startswith(p)`. */
  predicate StartsWith(s: String, p: String) {
    |p| <= |s| && s[..|p|] == p
  }

  /** Python's `sub in s`. */
  predicate Contains(s: String, sub: String)
    decreases |s|
  {
    StartsWith(s, sub) || (s != [] && Contains(s[1..], sub))
  }

  lemma {:induction false} ContainsInfix(a: String, sub: String, b: String)
    ensures Contains(a + sub + b, sub)
    decreases |a|
  {
    if a == [] {
      assert (a + sub + b)[..|sub|] == sub;
    } else {
      assert (a + sub + b)[1..] == a[1..] + sub + b;
      ContainsInfix(a[1..], sub, b);
    }
  }

  /** Python's slice `s[:n]`, including the negative `n` that counts from the end. */
  function Take<T>(s: seq<T>, n: int): (r: seq<T>)
    ensures |r| <= |s| && r == s[..|r|]
    ensures n >= 0 ==> |r| == if n <= |s| then n else |s|
    ensures n < 0 ==> |r| == if -n <= |s| then |s| + n else 0
  {
    if n >= 0 then (if n <= |s| then s[..n] else s)
    else (if -n <= |s| then s[..|s| + n] else [])
  }

  // ---------------------------------------------------------------- split / join

  /** Length of the run of non-whitespace characters at the front of `s`. */
  function WordLength(s: String): (n: nat)
    ensures n <= |s|
    ensures forall i :: 0 <= i < n ==> !IsSpace(s[i])
    ensures n < |s| ==> IsSpace(s[n])
  {
    if s == [] || IsSpace(s[0]) then 0 else 1 + WordLength(s[1..])
  }

  predicate NoSpace(w: String) {
    forall i :: 0 <= i < |w| ==> !IsSpace(w[i])
  }

  /** `str.split()` with no argument: the maximal runs of non-whitespace characters, in order. */
  function Words(s: String): (ws: seq<String>)
    ensures forall k :: 0 <= k < |ws| ==> ws[k] != [] && NoSpace(ws[k])
    ensures Concat(ws) == NonSpaceChars(s)
    decreases |s|
  {
    if s == [] then []
    else if IsSpace(s[0]) then Words(s[1..])
    else
      var n := WordLength(s);
      var rest := Words(s[n..]);
      assert ([s[..n]] + rest)[1..] == rest;
      NonSpacePrefix(s, n);
      [s[..n]] + rest
  }

  /** The pieces one after another (`''.join(ws)`). */
  function Concat(ws: seq<String>): String {
    if ws == [] then [] else ws[0] + Concat(ws[1..])
  }

  /** The characters of `s` that are not whitespace, in order. */
  function NonSpaceChars(s: String): String
    decreases |s|
  {
    if s == [] then []
    else if IsSpace(s[0]) then NonSpaceChars(s[1..])
    else [s[0]] + NonSpaceChars(s[1..])
  }

  /** A whitespace-free front of `s` is kept whole. */
  lemma {:induction false} NonSpacePrefix(s: String, n: nat)
    requires n <= |s| && NoSpace(s[..n])
    ensures NonSpaceChars(s) == s[..n] + NonSpaceChars(s[n..])
  {
    if n > 0 {
      assert s[1..][..n - 1] == s[1..n];
      NonSpacePrefix(s[1..], n - 1);
      assert s[1..][n - 1..] == s[n..];
      assert s[..n] == [s[0]] + s[1..n];
    }
  }

  /** `sep.join(ws)`. */
  function Join(sep: String, ws: seq<String>): String {
    if ws == [] then []
    else if |ws| == 1 then ws[0]
    else ws[0] + sep + Join(sep, ws[1..])
  }

  /** `s.split(d)` for a one-character separator: always at least one piece, and "" gives [""]. */
  function SplitOn(s: String, d: char): (parts: seq<String>)
    ensures |parts| >= 1
    ensures forall k :: 0 <= k < |parts| ==> d !in parts[k]
    decreases |s|
  {
    if s == [] then [[]]
    else
      var rest := SplitOn(s[1..], d);
      if s[0] == d then [[]] + rest
      else [[s[0]] + rest[0]] + rest[1..]
  }

  /** A string without the separator splits into itself alone. */
  lemma {:induction false} SplitOnAbsent(s: String, d: char)
    requires d !in s
    ensures SplitOn(s, d) == [s]
    decreases |s|
  {
    if s != [] {
      SplitOnAbsent(s[1..], d);
      assert [s[0]] + s[1..] == s;
    }
  }

  /** Splitting and re-joining with the same separator gives the original string back. */
  lemma {:induction false} JoinSplitOn(s: String, d: char)
    ensures Join([d], SplitOn(s, d)) == s
    decreases |s|
  {
    if s != [] {
      var rest := SplitOn(s[1..], d);
      JoinSplitOn(s[1..], d);
      if s[0] == d {
        assert SplitOn(s, d) == [[]] + rest;
      } else {
        var parts := [[s[0]] + rest[0]] + rest[1..];
        assert SplitOn(s, d) == parts;
        if |rest| == 1 {
          assert Join([d], parts) == [s[0]] + rest[0];
        } else {
          assert parts[1..] == rest[1..];
          assert Join([d], rest) == rest[0] + [d] + Join([d], rest[1..]);
        }
      }
    }
  }

  /** A whitespace-free word followed by a separator-or-nothing is split off as one word. */
  lemma {:induction false} WordsOfWord(w: String, rest: String)
    requires w != [] && NoSpace(w)
    requires rest == [] || IsSpace(rest[0])
    ensures Words(w + rest) == [w] + Words(rest)
  {
    var s := w + rest;
    WordLengthOfWord(w, rest);
    assert s[..|w|] == w && s[|w|..] == rest;
  }

  lemma {:induction false} WordLengthOfWord(w: String, rest: String)
    requires NoSpace(w)
    requires rest == [] || IsSpace(rest[0])
    ensures WordLength(w + rest) == |w|
    decreases |w|
  {
    if w != [] {
      assert (w + rest)[1..] == w[1..] + rest;
      WordLengthOfWord(w[1..], rest);
    } else {
      assert w + rest == rest;
    }
  }

  /** The non-empty elements of `ws`, in order. */
  function NonEmpty(ws: seq<String>): (r: seq<String>)
    ensures forall k :: 0 <= k < |r| ==> r[k] != []
  {
    if ws == [] then []
    else (if ws[0] == [] then [] else [ws[0]]) + NonEmpty(ws[1..])
  }

  /** Splitting a single-space join of whitespace-free pieces gives back the non-empty pieces. */
  lemma {:induction false} WordsOfJoin(ws: seq<String>)
    requires forall k :: 0 <= k < |ws| ==> NoSpace(ws[k])
    ensures Words(Join(" ", ws)) == NonEmpty(ws)
  {
    if ws == [] {
    } else if |ws| == 1 {
      if ws[0] != [] {
        WordsOfWord(ws[0], []);
        assert ws[0] + [] == ws[0];
      }
      assert NonEmpty(ws) == (if ws[0] == [] then [] else [ws[0]]) + NonEmpty([]);
    } else {
      var j := Join(" ", ws[1..]);
      WordsOfJoin(ws[1..]);
      assert Join(" ", ws) == ws[0] + (" " + j);
      assert Words(" " + j) == Words(j) by {
        assert (" " + j)[1..] == j;
      }
      if ws[0] != [] {
        WordsOfWord(ws[0], " " + j);
      } else {
        assert ws[0] + (" " + j) == " " + j;
      }
    }
  }

  /** A sequence of whitespace-free words with nothing empty is its own `NonEmpty`. */
  lemma {:induction false} NonEmptyOfWords(ws: seq<String>)
    requires forall k :: 0 <= k < |ws| ==> ws[k] != []
    ensures NonEmpty(ws) == ws
  {
    if ws != [] {
      NonEmptyOfWords(ws[1..]);
    }
  }

  // ---------------------------------------------------------------- facts used by the normalisers

  lemma {:induction false} ReplaceCharAppend(a: String, b: String, x: char, y: char)
    ensures ReplaceChar(a + b, x, y) == ReplaceChar(a, x, y) + ReplaceChar(b, x, y)
  {
  }

  lemma {:induction false} DeleteCharAppend(a: String, b: String, x: char)
    ensures DeleteChar(a + b, x) == DeleteChar(a, x) + DeleteChar(b, x)
    decreases |a|
  {
    if a != [] {
      assert (a + b)[1..] == a[1..] + b;
      DeleteCharAppend(a[1..], b, x);
    } else {
      assert a + b == b;
    }
  }

  lemma {:induction false} DeleteCharAbsent(s: String, x: char)
    requires x !in s
    ensures DeleteChar(s, x) == s
    decreases |s|
  {
    if s != [] {
      DeleteCharAbsent(s[1..], x);
    }
  }

  /** Every character of `DeleteChar(s, x)` comes from `s`. */
  lemma {:induction false} DeleteCharFrom(s: String, x: char, c: char)
    requires c in DeleteChar(s, x)
    ensures c in s
    decreases |s|
  {
    if s != [] && c != s[0] {
      DeleteCharFrom(s[1..], x, c);
    }
  }

  /** A character that does not occur in `s` does not occur in any of its words. */
  lemma {:induction false} WordsAvoid(s: String, c: char)
    requires c !in s
    ensures forall k :: 0 <= k < |Words(s)| ==> c !in Words(s)[k]
    decreases |s|
  {
    if s != [] {
      if IsSpace(s[0]) {
        WordsAvoid(s[1..], c);
      } else {
        var n := WordLength(s);
        assert c !in s[n..];
        WordsAvoid(s[n..], c);
        assert c !in s[..n];
      }
    }
  }

  /** Two strings with whitespace in the same places and equal elsewhere have the same words. */
  lemma {:induction false} WordsSameSpaces(a: String, b: String)
    requires |a| == |b|
    requires forall i :: 0 <= i < |a| ==> (IsSpace(a[i]) <==> IsSpace(b[i]))
    requires forall i :: 0 <= i < |a| && !IsSpace(a[i]) ==> a[i] == b[i]
    ensures Words(a) == Words(b)
    decreases |a|
  {
    if a != [] {
      if IsSpace(a[0]) {
        WordsSameSpaces(a[1..], b[1..]);
      } else {
        var n := WordLength(a);
        WordLengthSameSpaces(a, b);
        assert a[..n] == b[..n];
        WordsSameSpaces(a[n..], b[n..]);
      }
    }
  }

  lemma {:induction false} WordLengthSameSpaces(a: String, b: String)
    requires |a| == |b|
    requires forall i :: 0 <= i < |a| ==> (IsSpace(a[i]) <==> IsSpace(b[i]))
    ensures WordLength(a) == WordLength(b)
    decreases |a|
  {
    if a != [] {
      WordLengthSameSpaces(a[1..], b[1..]);
    }
  }

  /** No two adjacent spaces. */
  predicate NoDoubleSpace(s: String) {
    forall i :: 0 <= i < |s| - 1 ==> !(s[i] == ' ' && s[i + 1] == ' ')
  }

  /** The only whitespace character is the plain space. */
  predicate OnlyPlainSpaces(s: String) {
    forall i :: 0 <= i < |s| ==> IsSpace(s[i]) ==> s[i] == ' '
  }

  /** The shape `" ".join(s.split())` produces. */
  predicate IsSpaceNormal(s: String) {
    IsStripped(s) && NoDoubleSpace(s) && OnlyPlainSpaces(s)
  }

  /** Joining non-empty whitespace-free words with single spaces gives a space-normal string. */
  lemma {:induction false} JoinSpaceNormal(ws: seq<String>)
    requires forall k :: 0 <= k < |ws| ==> ws[k] != [] && NoSpace(ws[k])
    ensures IsSpaceNormal(Join(" ", ws))
    ensures ws != [] ==> Join(" ", ws) != []
  {
    if |ws| > 1 {
      JoinSpaceNormal(ws[1..]);
      var w, j := ws[0], Join(" ", ws[1..]);
      var r := w + " " + j;
      assert Join(" ", ws) == r;
      forall i | 0 <= i < |r| - 1
        ensures !(r[i] == ' ' && r[i + 1] == ' ')
      {
        if i >= |w| + 1 {
          assert r[i] == j[i - |w| - 1] && r[i + 1] == j[i - |w|];
        }
      }
      forall i | 0 <= i < |r| && IsSpace(r[i])
        ensures r[i] == ' '
      {
        if i > |w| {
          assert r[i] == j[i - |w| - 1];
        }
      }
    }
  }

  /** Conversely, a space-normal string is the single-space join of its own words. */
  lemma {:induction false} SpaceNormalIsJoin(s: String)
    requires IsSpaceNormal(s)
    ensures Join(" ", Words(s)) == s
    decreases |s|
  {
    if s != [] {
      var n := WordLength(s);
      if n < |s| {
        SpaceNormalTail(s, n);
        SpaceNormalIsJoin(s[n + 1..]);
      }
      JoinWordsStep(s, n);
    }
  }

  lemma {:induction false} JoinWordsStep(s: String, n: nat)
    requires s != [] && !IsSpace(s[0]) && n == WordLength(s)
    requires n < |s| ==> s[n] == ' ' && n + 1 < |s| && !IsSpace(s[n + 1])
    requires n < |s| ==> Join(" ", Words(s[n + 1..])) == s[n + 1..]
    ensures Join(" ", Words(s)) == s
  {
    var w, rest := s[..n], s[n..];
    if rest == [] {
      assert s == w + rest && w + rest == w;
      WordsOfWord(w, rest);
    } else {
      var tail := s[n + 1..];
      assert rest == [' '] + tail;
      assert s == w + ([' '] + tail);
      JoinWordThenTail(w, tail);
    }
  }

  /** A word, one space and a space-normal remainder join back to themselves. */
  lemma JoinWordThenTail(w: String, tail: String)
    requires w != [] && NoSpace(w)
    requires tail != [] && !IsSpace(tail[0])
    requires Join(" ", Words(tail)) == tail
    ensures Join(" ", Words(w + ([' '] + tail))) == w + ([' '] + tail)
  {
    var rest := [' '] + tail;
    WordsOfWord(w, rest);
    assert rest[1..] == tail;
    var wt := Words(tail);
    assert wt != [];
    var ws := [w] + wt;
    assert ws[1..] == wt;
    assert w + " " + tail == w + ([' '] + tail);
  }

  /** After the first word and its single following space, what remains is again space-normal. */
  lemma {:induction false} SpaceNormalTail(s: String, n: nat)
    requires IsSpaceNormal(s) && n == WordLength(s) && n < |s|
    ensures s[n] == ' ' && n + 1 < |s| && !IsSpace(s[n + 1])
    ensures IsSpaceNormal(s[n + 1..])
  {
    var tail := s[n + 1..];
    assert IsSpace(s[n]) && !IsSpace(s[|s| - 1]);
    forall i | 0 <= i < |tail| - 1 ensures !(tail[i] == ' ' && tail[i + 1] == ' ') {
      assert tail[i] == s[n + 1 + i] && tail[i + 1] == s[n + 2 + i];
    }
    forall i | 0 <= i < |tail| && IsSpace(tail[i]) ensures tail[i] == ' ' {
      assert tail[i] == s[n + 1 + i];
    }
  }

  // ---------------------------------------------------------------- decimal numerals

  function DigitChar(d: nat): (c: char)
    requires d < 10
    ensures IsDigit(c)
  {
    (48 + d) as char
  }

  /** The decimal numeral of a natural number, as `str(n)` writes it. */
  function NatDigits(n: nat): (s: String)
    ensures |s| >= 1
    ensures forall i :: 0 <= i < |s| ==> IsDigit(s[i])
  {
    if n < 10 then [DigitChar(n)] else NatDigits(n / 10) + [DigitChar(n % 10)]
  }

  /** The value of a string of decimal digits. */
  function DigitsValue(s: String): nat
    requires forall i :: 0 <= i < |s| ==> IsDigit(s[i])
  {
    if s == [] then 0
    else
      assert IsDigit(s[|s| - 1]);
      10 * DigitsValue(s[..|s| - 1]) + (s[|s| - 1] as int - 48)
  }

  /** Reading the numeral back gives the number. */
  lemma {:induction false} DigitsValueOfNatDigits(n: nat)
    ensures DigitsValue(NatDigits(n)) == n
  {
    if n >= 10 {
      DigitsValueOfNatDigits(n / 10);
      var s := NatDigits(n);
      assert s[..|s| - 1] == NatDigits(n / 10);
    }
  }

  /** `str(n)` for any integer: a minus sign before the numeral of a negative number. */
  function DecimalString(n: int): String {
    if n < 0 then "-" + NatDigits(-n) else NatDigits(n)
  }
}
