/** Sequence operations shared by the pipeline stages: filtering, keeping the first element per
    key, counting (Python's `collections.Counter`) and the stable descending sort that
    `sorted(..., reverse=True)` and `Counter.most_common` perform. */
module Collections {

  function Identity<T>(x: T): T { x }

  // ---------------------------------------------------------------- subsequences

  /** `a` can be obtained from `b` by deleting elements (greedy match from the right). */
  predicate IsSubsequence<T(==)>(a: seq<T>, b: seq<T>)
    decreases |b|
  {
    if a == [] then true
    else if b == [] then false
    else if a[|a| - 1] == b[|b| - 1] then IsSubsequence(a[..|a| - 1], b[..|b| - 1])
    else IsSubsequence(a, b[..|b| - 1])
  }

  lemma {:induction false} SubsequenceAppend<T>(a: seq<T>, b: seq<T>, x: T)
    requires IsSubsequence(a, b)
    ensures IsSubsequence(a, b + [x])
    ensures IsSubsequence(a + [x], b + [x])
    decreases |b|, 1
  {
    assert (b + [x])[..|b|] == b;
    assert (a + [x])[..|a|] == a;
    if a != [] && a[|a| - 1] == x {
      SubsequenceDropLast(a, b);
    }
  }

  lemma {:induction false} SubsequenceDropLast<T>(a: seq<T>, b: seq<T>)
    requires a != [] && IsSubsequence(a, b)
    ensures IsSubsequence(a[..|a| - 1], b)
    decreases |b|, 0
  {
    var b' := b[..|b| - 1];
    assert b == b' + [b[|b| - 1]];
    if a[|a| - 1] == b[|b| - 1] {
      SubsequenceAppend(a[..|a| - 1], b', b[|b| - 1]);
    } else {
      SubsequenceDropLast(a, b');
      SubsequenceAppend(a[..|a| - 1], b', b[|b| - 1]);
    }
  }

  lemma {:induction false} SubsequenceMembers<T>(a: seq<T>, b: seq<T>)
    requires IsSubsequence(a, b)
    ensures forall x :: x in a ==> x in b
    ensures |a| <= |b|
    decreases |b|
  {
    if a != [] && b != [] {
      var a', b' := a[..|a| - 1], b[..|b| - 1];
      assert a == a' + [a[|a| - 1]] && b == b' + [b[|b| - 1]];
      if a[|a| - 1] == b[|b| - 1] {
        SubsequenceMembers(a', b');
      } else {
        SubsequenceMembers(a, b');
      }
    }
  }

  // ---------------------------------------------------------------- filtering

  /** The elements of `s` satisfying `p`, in order (a list comprehension with an `if`). */
  function Filter<T>(p: T -> bool, s: seq<T>): (r: seq<T>)
    ensures |r| <= |s|
    decreases |s|
  {
    if s == [] then []
    else Filter(p, s[..|s| - 1]) + (if p(s[|s| - 1]) then [s[|s| - 1]] else [])
  }

  /** Everything kept comes from the input and satisfies `p`. */
  lemma {:induction false} FilterMembers<T>(p: T -> bool, s: seq<T>)
    ensures forall x :: x in Filter(p, s) ==> x in s && p(x)
    decreases |s|
  {
    if s != [] {
      FilterMembers(p, s[..|s| - 1]);
    }
  }

  lemma {:induction false} FilterIsSubsequence<T>(p: T -> bool, s: seq<T>)
    ensures IsSubsequence(Filter(p, s), s)
    decreases |s|
  {
    if s != [] {
      var s' := s[..|s| - 1];
      FilterIsSubsequence(p, s');
      assert s == s' + [s[|s| - 1]];
      SubsequenceAppend(Filter(p, s'), s', s[|s| - 1]);
      if p(s[|s| - 1]) {
        assert Filter(p, s) == Filter(p, s') + [s[|s| - 1]];
      } else {
        assert Filter(p, s) == Filter(p, s');
      }
    }
  }

  /** Nothing satisfying `p` is dropped. */
  lemma {:induction false} FilterKeeps<T>(p: T -> bool, s: seq<T>, x: T)
    requires x in s && p(x)
    ensures x in Filter(p, s)
    decreases |s|
  {
    var s' := s[..|s| - 1];
    assert s == s' + [s[|s| - 1]];
    if x != s[|s| - 1] {
      FilterKeeps(p, s', x);
    }
  }

  /** Extending the input by its next element extends the output by that element if it passes. */
  lemma FilterStep<T>(p: T -> bool, s: seq<T>, i: nat)
    requires i < |s|
    ensures Filter(p, s[..i + 1]) == Filter(p, s[..i]) + (if p(s[i]) then [s[i]] else [])
  {
    assert s[..i + 1][..i] == s[..i];
  }

  /** Each element mapped to a list, and the lists concatenated in order. */
  function FlatMap<T, U>(f: T -> seq<U>, s: seq<T>): seq<U> {
    if s == [] then [] else FlatMap(f, s[..|s| - 1]) + f(s[|s| - 1])
  }

  lemma {:induction false} FlatMapAppend<T, U>(f: T -> seq<U>, a: seq<T>, b: seq<T>)
    ensures FlatMap(f, a + b) == FlatMap(f, a) + FlatMap(f, b)
    decreases |b|
  {
    if b == [] {
      assert a + b == a;
    } else {
      var n := |b| - 1;
      assert (a + b)[..|a + b| - 1] == a + b[..n];
      assert (a + b)[|a + b| - 1] == b[n];
      FlatMapAppend(f, a, b[..n]);
    }
  }

  /** Extending the input by its next element extends the result by that element's list. */
  lemma FlatMapStep<T, U>(f: T -> seq<U>, s: seq<T>, i: nat)
    requires i < |s|
    ensures FlatMap(f, s[..i + 1]) == FlatMap(f, s[..i]) + f(s[i])
  {
    assert s[..i + 1][..i] == s[..i];
  }

  /** Functions that agree on every element flat-map the list alike. */
  lemma {:induction false} FlatMapAgree<T, U>(f: T -> seq<U>, g: T -> seq<U>, s: seq<T>)
    requires forall i :: 0 <= i < |s| ==> f(s[i]) == g(s[i])
    ensures FlatMap(f, s) == FlatMap(g, s)
    decreases |s|
  {
    if s != [] {
      var n := |s| - 1;
      assert forall i :: 0 <= i < n ==> s[..n][i] == s[i];
      FlatMapAgree(f, g, s[..n]);
    }
  }

  /** Every element of the result comes from the list of one input element. */
  lemma {:induction false} FlatMapMembers<T, U>(f: T -> seq<U>, s: seq<T>, y: U)
    requires y in FlatMap(f, s)
    ensures exists i :: 0 <= i < |s| && y in f(s[i])
  {
    var n := |s| - 1;
    if y in FlatMap(f, s[..n]) {
      FlatMapMembers(f, s[..n], y);
      var i :| 0 <= i < n && y in f(s[..n][i]);
      assert s[i] == s[..n][i];
    } else {
      assert y in f(s[n]);
    }
  }

  /** Number of occurrences of `x` in `s` (`list.count`). */
  function Count<T(==)>(s: seq<T>, x: T): (n: nat)
    ensures n <= |s|
    ensures n > 0 <==> x in s
    decreases |s|
  {
    if s == [] then 0
    else Count(s[..|s| - 1], x) + (if s[|s| - 1] == x then 1 else 0)
  }

  /** Number of elements satisfying `p` (`len([x for x in s if p(x)])`). */
  function CountIf<T>(p: T -> bool, s: seq<T>): (n: nat)
    decreases |s|
  {
    if s == [] then 0
    else CountIf(p, s[..|s| - 1]) + (if p(s[|s| - 1]) then 1 else 0)
  }

  lemma {:induction false} CountIfIsFilterLength<T>(p: T -> bool, s: seq<T>)
    ensures CountIf(p, s) == |Filter(p, s)|
    decreases |s|
  {
    if s != [] {
      CountIfIsFilterLength(p, s[..|s| - 1]);
    }
  }

  /** Elements satisfying `p` and elements failing it together account for the whole sequence. */
  lemma {:induction false} CountIfSplit<T>(p: T -> bool, q: T -> bool, s: seq<T>)
    requires forall x :: q(x) == !p(x)
    ensures CountIf(p, s) + CountIf(q, s) == |s|
    decreases |s|
  {
    if s != [] {
      CountIfSplit(p, q, s[..|s| - 1]);
    }
  }

  // ---------------------------------------------------------------- first element per key

  function KeysOf<T(==), K>(s: seq<T>, key: T -> K): set<K> {
    set x | x in s :: key(x)
  }

  /** Walks `s` and keeps an element only if no earlier element had the same key
      (the `seen` set plus `append` loop). */
  function FirstPerKey<T(==), K(==)>(s: seq<T>, key: T -> K): (r: seq<T>)
    ensures |r| <= |s|
    decreases |s|
  {
    if s == [] then []
    else
      var s' := s[..|s| - 1];
      FirstPerKey(s', key) + (if key(s[|s| - 1]) in KeysOf(s', key) then [] else [s[|s| - 1]])
  }

  /** No two elements share a key. */
  predicate DistinctKeys<T, K(==)>(s: seq<T>, key: T -> K) {
    forall i, j :: 0 <= i < j < |s| ==> key(s[i]) != key(s[j])
  }

  /** `x` is the first element of `s` with its key. */
  predicate IsFirstWithKey<T(==), K(==)>(s: seq<T>, key: T -> K, x: T) {
    exists i :: 0 <= i < |s| && s[i] == x && forall j :: 0 <= j < i ==> key(s[j]) != key(x)
  }

  lemma {:induction false} KeysOfAppend<T, K>(s: seq<T>, x: T, key: T -> K)
    ensures KeysOf(s + [x], key) == KeysOf(s, key) + {key(x)}
  {
    var t := s + [x];
    assert forall y :: y in t <==> y in s || y == x;
  }

  /** A left-to-right pass with a set of the keys seen so far, keeping each element whose key
      is new: the loop of `deduplicate_results`. */
  method KeepFirstPerKey<T, K(==)>(s: seq<T>, key: T -> K) returns (kept: seq<T>)
    ensures kept == FirstPerKey(s, key)
  {
    var seen: set<K> := {};
    kept := [];
    for i := 0 to |s|
      invariant kept == FirstPerKey(s[..i], key)
      invariant seen == KeysOf(s[..i], key)
    {
      FirstPerKeyStep(s, i, key);
      var k := key(s[i]);
      if k !in seen {
        seen := seen + {k};
        kept := kept + [s[i]];
      }
    }
    assert s[..|s|] == s;
  }

  /** A filter that rejects every element leaves nothing. */
  lemma {:induction false} FilterNone<T>(p: T -> bool, s: seq<T>)
    requires forall i :: 0 <= i < |s| ==> !p(s[i])
    ensures Filter(p, s) == []
  {
    if s != [] {
      FilterNone(p, s[..|s| - 1]);
    }
  }

  /** Filtering distributes over concatenation. */
  lemma {:induction false} FilterAppend<T>(p: T -> bool, a: seq<T>, b: seq<T>)
    ensures Filter(p, a + b) == Filter(p, a) + Filter(p, b)
    decreases |b|
  {
    if b == [] {
      assert a + b == a;
    } else {
      var ab := a + b;
      assert ab[..|ab| - 1] == a + b[..|b| - 1];
      FilterAppend(p, a, b[..|b| - 1]);
    }
  }

  /** Filtering by `p` and then by `q` is filtering by `r` when `r` is the conjunction of the two
      on every element. */
  lemma {:induction false} FilterFilter<T>(p: T -> bool, q: T -> bool, r: T -> bool, s: seq<T>)
    requires forall i :: 0 <= i < |s| ==> r(s[i]) == (p(s[i]) && q(s[i]))
    ensures Filter(q, Filter(p, s)) == Filter(r, s)
    decreases |s|
  {
    if s != [] {
      var init := s[..|s| - 1];
      var last := s[|s| - 1];
      FilterFilter(p, q, r, init);
      FilterAppend(q, Filter(p, init), if p(last) then [last] else []);
    }
  }

  /** Ends that `p` rejects throughout do not change the filter. */
  lemma FilterOfMiddle<T>(p: T -> bool, s: seq<T>, k: nat, n: nat)
    requires k + n <= |s|
    requires forall i :: 0 <= i < k ==> !p(s[i])
    requires forall i :: k + n <= i < |s| ==> !p(s[i])
    ensures Filter(p, s[k..k + n]) == Filter(p, s)
  {
    var rest := s[k..];
    assert rest[..n] == s[k..k + n];
    forall i | n <= i < |rest| ensures !p(rest[i]) {
      assert rest[i] == s[k + i];
    }
    FilterDropBack(p, rest, n);
    FilterDropFront(p, s, k);
  }

  /** A tail that `p` rejects throughout does not change the filter. */
  lemma {:induction false} FilterDropBack<T>(p: T -> bool, s: seq<T>, m: nat)
    requires m <= |s|
    requires forall i :: m <= i < |s| ==> !p(s[i])
    ensures Filter(p, s[..m]) == Filter(p, s)
    decreases |s|
  {
    if m < |s| {
      var init := s[..|s| - 1];
      assert init[..m] == s[..m];
      FilterDropBack(p, init, m);
    } else {
      assert s[..m] == s;
    }
  }

  /** A head that `p` rejects throughout does not change the filter. */
  lemma {:induction false} FilterDropFront<T>(p: T -> bool, s: seq<T>, k: nat)
    requires k <= |s|
    requires forall i :: 0 <= i < k ==> !p(s[i])
    ensures Filter(p, s[k..]) == Filter(p, s)
    decreases |s|
  {
    if k == |s| {
      FilterNone(p, s);
    } else {
      var init := s[..|s| - 1];
      var rest := s[k..];
      FilterDropFront(p, init, k);
      assert rest[..|rest| - 1] == init[k..];
      assert rest[|rest| - 1] == s[|s| - 1];
    }
  }

  /** One step of a left-to-right pass: the prefix grows by one element. */
  lemma FirstPerKeyStep<T, K>(s: seq<T>, i: nat, key: T -> K)
    requires i < |s|
    ensures FirstPerKey(s[..i + 1], key)
      == FirstPerKey(s[..i], key) + (if key(s[i]) in KeysOf(s[..i], key) then [] else [s[i]])
    ensures KeysOf(s[..i + 1], key) == KeysOf(s[..i], key) + {key(s[i])}
  {
    assert s[..i + 1] == s[..i] + [s[i]];
    assert s[..i + 1][..i] == s[..i];
    KeysOfAppend(s[..i], s[i], key);
  }

  /** The kept elements form a subsequence of the input. */
  lemma {:induction false} FirstPerKeySubsequence<T, K>(s: seq<T>, key: T -> K)
    ensures IsSubsequence(FirstPerKey(s, key), s)
    decreases |s|
  {
    if s != [] {
      var s', last := s[..|s| - 1], s[|s| - 1];
      assert s == s' + [last];
      FirstPerKeySubsequence(s', key);
      SubsequenceAppend(FirstPerKey(s', key), s', last);
      if key(last) in KeysOf(s', key) {
        assert FirstPerKey(s, key) == FirstPerKey(s', key);
      } else {
        assert FirstPerKey(s, key) == FirstPerKey(s', key) + [last];
      }
    }
  }

  /** Every key of the input is the key of some kept element. */
  lemma {:induction false} FirstPerKeyKeys<T, K>(s: seq<T>, key: T -> K)
    ensures KeysOf(FirstPerKey(s, key), key) == KeysOf(s, key)
    decreases |s|
  {
    if s != [] {
      var s', last := s[..|s| - 1], s[|s| - 1];
      assert s == s' + [last];
      FirstPerKeyKeys(s', key);
      KeysOfAppend(s', last, key);
      KeysOfAppend(FirstPerKey(s', key), last, key);
    }
  }

  /** No two kept elements share a key. */
  lemma {:induction false} FirstPerKeyDistinct<T, K>(s: seq<T>, key: T -> K)
    ensures DistinctKeys(FirstPerKey(s, key), key)
    decreases |s|
  {
    if s != [] {
      var s', last := s[..|s| - 1], s[|s| - 1];
      var r', r := FirstPerKey(s', key), FirstPerKey(s, key);
      FirstPerKeyDistinct(s', key);
      if key(last) !in KeysOf(s', key) {
        FirstPerKeyKeys(s', key);
        assert r == r' + [last];
        forall i, j | 0 <= i < j < |r| ensures key(r[i]) != key(r[j]) {
          assert r[i] == r'[i];
          if j == |r| - 1 {
            assert r'[i] in r';
            assert key(r'[i]) in KeysOf(r', key);
          } else {
            assert r[j] == r'[j];
          }
        }
      }
    }
  }

  /** Each kept element is the first input element carrying its key. */
  lemma {:induction false} FirstPerKeyFirst<T, K>(s: seq<T>, key: T -> K)
    ensures forall x :: x in FirstPerKey(s, key) ==> IsFirstWithKey(s, key, x)
    decreases |s|
  {
    if s != [] {
      var s', last := s[..|s| - 1], s[|s| - 1];
      assert s == s' + [last];
      var r', r := FirstPerKey(s', key), FirstPerKey(s, key);
      FirstPerKeyFirst(s', key);
      forall x | x in r ensures IsFirstWithKey(s, key, x) {
        if x in r' {
          FirstWithKeyExtends(s', key, x, last);
        } else {
          assert x == last && key(last) !in KeysOf(s', key);
          forall j | 0 <= j < |s| - 1 ensures key(s[j]) != key(x) {
            assert s[j] in s';
          }
          assert s[|s| - 1] == x;
        }
      }
    }
  }

  lemma {:induction false} FirstWithKeyExtends<T, K>(s: seq<T>, key: T -> K, x: T, y: T)
    requires IsFirstWithKey(s, key, x)
    ensures IsFirstWithKey(s + [y], key, x)
  {
    var i :| 0 <= i < |s| && s[i] == x && forall j :: 0 <= j < i ==> key(s[j]) != key(x);
    assert (s + [y])[i] == x;
    forall j | 0 <= j < i ensures key((s + [y])[j]) != key(x) {
      assert (s + [y])[j] == s[j];
    }
  }

  /** A sequence whose keys are already distinct is left unchanged. */
  lemma {:induction false} FirstPerKeyOfDistinct<T, K>(s: seq<T>, key: T -> K)
    requires DistinctKeys(s, key)
    ensures FirstPerKey(s, key) == s
    decreases |s|
  {
    if s != [] {
      var s', last := s[..|s| - 1], s[|s| - 1];
      LastKeyIsNew(s, key);
      FirstPerKeyOfDistinct(s', key);
      assert s == s' + [last];
    }
  }

  /** With distinct keys, the last element's key is not among the others', and the others
      still have distinct keys. */
  lemma LastKeyIsNew<T, K>(s: seq<T>, key: T -> K)
    requires s != [] && DistinctKeys(s, key)
    ensures key(s[|s| - 1]) !in KeysOf(s[..|s| - 1], key)
    ensures DistinctKeys(s[..|s| - 1], key)
  {
    var s' := s[..|s| - 1];
    forall y | y in s' ensures key(y) != key(s[|s| - 1]) {
      var i :| 0 <= i < |s'| && s'[i] == y;
      assert s[i] == y;
    }
  }

  /** Keeping the first element per key is idempotent. */
  lemma FirstPerKeyIdempotent<T, K>(s: seq<T>, key: T -> K)
    ensures FirstPerKey(FirstPerKey(s, key), key) == FirstPerKey(s, key)
  {
    FirstPerKeyDistinct(s, key);
    FirstPerKeyOfDistinct(FirstPerKey(s, key), key);
  }

  // ---------------------------------------------------------------- counting

  /** One entry of a `Counter`, or of the dict built from `most_common`. */
  datatype Tallied<T> = Tallied(key: T, count: nat)

  function TallyKeys<T>(t: seq<Tallied<T>>): (ks: seq<T>)
    ensures |ks| == |t|
    ensures forall i :: 0 <= i < |t| ==> ks[i] == t[i].key
  {
    if t == [] then [] else [t[0].key] + TallyKeys(t[1..])
  }

  predicate KeysDistinct<T(==)>(t: seq<Tallied<T>>) {
    forall i, j :: 0 <= i < j < |t| ==> t[i].key != t[j].key
  }

  /** `counter[x] += 1` on an insertion-ordered counter: the entry for `x` goes up by one,
      or a new entry `(x, 1)` is appended at the end. */
  function Bump<T(==)>(t: seq<Tallied<T>>, x: T): (r: seq<Tallied<T>>)
  {
    if t == [] then [Tallied(x, 1)]
    else if t[0].key == x then [Tallied(x, t[0].count + 1)] + t[1..]
    else [t[0]] + Bump(t[1..], x)
  }

  lemma {:induction false} BumpKeys<T>(t: seq<Tallied<T>>, x: T)
    ensures TallyKeys(Bump(t, x)) == TallyKeys(t) + (if x in TallyKeys(t) then [] else [x])
  {
    if t != [] && t[0].key != x {
      BumpKeys(t[1..], x);
      assert TallyKeys(Bump(t, x)) == [t[0].key] + TallyKeys(Bump(t[1..], x));
    }
  }

  lemma {:induction false} BumpDistinct<T>(t: seq<Tallied<T>>, x: T)
    requires KeysDistinct(t)
    ensures KeysDistinct(Bump(t, x))
  {
    BumpKeys(t, x);
    var ks := TallyKeys(Bump(t, x));
    var ks0 := TallyKeys(t);
    assert forall i, j :: 0 <= i < j < |ks0| ==> ks0[i] != ks0[j];
    assert forall i, j :: 0 <= i < j < |ks| ==> ks[i] != ks[j];
  }

  lemma {:induction false} BumpCounts<T>(t: seq<Tallied<T>>, x: T)
    requires KeysDistinct(t)
    ensures |Bump(t, x)| == |t| + (if x in TallyKeys(t) then 0 else 1)
    ensures forall i :: 0 <= i < |t| ==>
      Bump(t, x)[i].count == t[i].count + (if t[i].key == x then 1 else 0)
    ensures x !in TallyKeys(t) ==> Bump(t, x)[|t|].count == 1
  {
    if t != [] {
      if t[0].key == x {
        BumpAtHead(t, x);
      } else {
        assert KeysDistinct(t[1..]);
        BumpCounts(t[1..], x);
        BumpPastHead(t, x);
      }
    }
  }

  /** Bumping another key leaves the first entry and bumps the rest. */
  lemma BumpPastHead<T>(t: seq<Tallied<T>>, x: T)
    requires t != [] && t[0].key != x
    requires |Bump(t[1..], x)| == |t[1..]| + (if x in TallyKeys(t[1..]) then 0 else 1)
    requires forall i :: 0 <= i < |t[1..]| ==>
      Bump(t[1..], x)[i].count == t[1..][i].count + (if t[1..][i].key == x then 1 else 0)
    requires x !in TallyKeys(t[1..]) ==> Bump(t[1..], x)[|t[1..]|].count == 1
    ensures |Bump(t, x)| == |t| + (if x in TallyKeys(t) then 0 else 1)
    ensures forall i :: 0 <= i < |t| ==>
      Bump(t, x)[i].count == t[i].count + (if t[i].key == x then 1 else 0)
    ensures x !in TallyKeys(t) ==> Bump(t, x)[|t|].count == 1
  {
    assert t == [t[0]] + t[1..];
    assert Bump(t, x) == [t[0]] + Bump(t[1..], x);
    ConsCounts(t[0], t[1..], Bump(t[1..], x), x, t, Bump(t, x));
  }

  /** The counts of a bumped tally survive putting an entry for another key in front. */
  lemma ConsCounts<T>(h: Tallied<T>, tail: seq<Tallied<T>>, rest: seq<Tallied<T>>, x: T,
                      t: seq<Tallied<T>>, r: seq<Tallied<T>>)
    requires t == [h] + tail && r == [h] + rest
    requires h.key != x
    requires |rest| == |tail| + (if x in TallyKeys(tail) then 0 else 1)
    requires forall i :: 0 <= i < |tail| ==> rest[i].count == tail[i].count + (if tail[i].key == x then 1 else 0)
    requires x !in TallyKeys(tail) ==> rest[|tail|].count == 1
    ensures |r| == |t| + (if x in TallyKeys(t) then 0 else 1)
    ensures forall i :: 0 <= i < |t| ==> r[i].count == t[i].count + (if t[i].key == x then 1 else 0)
    ensures x !in TallyKeys(t) ==> r[|t|].count == 1
  {
    assert t[1..] == tail;
    assert TallyKeys(t) == [h.key] + TallyKeys(tail);
    assert x in TallyKeys(t) <==> x in TallyKeys(tail);
    forall i | 1 <= i < |t| ensures r[i].count == t[i].count + (if t[i].key == x then 1 else 0) {
      assert r[i] == rest[i - 1] && t[i] == tail[i - 1];
    }
  }

  /** Bumping the first entry's key raises that entry alone. */
  lemma BumpAtHead<T>(t: seq<Tallied<T>>, x: T)
    requires KeysDistinct(t) && t != [] && t[0].key == x
    ensures x in TallyKeys(t) && |Bump(t, x)| == |t|
    ensures forall i :: 0 <= i < |t| ==>
      Bump(t, x)[i].count == t[i].count + (if t[i].key == x then 1 else 0)
  {
    assert TallyKeys(t)[0] == x;
    assert forall i :: 1 <= i < |t| ==> t[i].key != x;
  }

  lemma {:induction false} BumpTotal<T>(t: seq<Tallied<T>>, x: T)
    ensures TotalCount(Bump(t, x)) == TotalCount(t) + 1
  {
    if t != [] && t[0].key != x {
      BumpTotal(t[1..], x);
    }
  }

  /** `Counter(s)` as its insertion-ordered list of entries. */
  function Tally<T(==)>(s: seq<T>): seq<Tallied<T>>
    decreases |s|
  {
    if s == [] then [] else Bump(Tally(s[..|s| - 1]), s[|s| - 1])
  }

  function TotalCount<T>(t: seq<Tallied<T>>): nat {
    if t == [] then 0 else t[0].count + TotalCount(t[1..])
  }

  /** The counter's keys are the distinct elements, in order of first occurrence. */
  lemma {:induction false} TallyKeysFirst<T>(s: seq<T>)
    ensures TallyKeys(Tally(s)) == FirstPerKey(s, Identity)
    ensures forall x :: x in s <==> x in TallyKeys(Tally(s))
    decreases |s|
  {
    if s != [] {
      var s', x := s[..|s| - 1], s[|s| - 1];
      assert s == s' + [x];
      TallyKeysFirst(s');
      BumpKeys(Tally(s'), x);
      assert x in s' <==> Identity(x) in KeysOf(s', Identity) by {
        if Identity(x) in KeysOf(s', Identity) {
          var y :| y in s' && Identity(y) == Identity(x);
        }
      }
    }
  }

  /** The counter has one entry per key, and the entries' counts add up to the input length. */
  lemma {:induction false} TallyDistinct<T>(s: seq<T>)
    ensures KeysDistinct(Tally(s))
    ensures TotalCount(Tally(s)) == |s|
    decreases |s|
  {
    if s != [] {
      TallyDistinct(s[..|s| - 1]);
      BumpDistinct(Tally(s[..|s| - 1]), s[|s| - 1]);
      BumpTotal(Tally(s[..|s| - 1]), s[|s| - 1]);
    }
  }

  /** Each entry's count is the number of occurrences of its key. */
  lemma {:induction false} TallyCounts<T>(s: seq<T>)
    ensures forall i :: 0 <= i < |Tally(s)| ==> Tally(s)[i].count == Count(s, Tally(s)[i].key)
    decreases |s|
  {
    if s != [] {
      var s', x := s[..|s| - 1], s[|s| - 1];
      var t, r := Tally(s'), Tally(s);
      TallyCounts(s');
      TallyDistinct(s');
      TallyKeysFirst(s');
      BumpCounts(t, x);
      BumpKeys(t, x);
      forall i | 0 <= i < |r| ensures r[i].count == Count(s, r[i].key) {
        assert r[i].key == TallyKeys(r)[i];
        if i < |t| {
          assert TallyKeys(r)[i] == TallyKeys(t)[i];
        } else {
          assert TallyKeys(r)[i] == x && x !in s';
        }
      }
    }
  }

  // ---------------------------------------------------------------- stable descending sort

  /** Non-increasing by `key`. */
  predicate SortedDesc<T>(s: seq<T>, key: T -> real) {
    forall i, j :: 0 <= i < j < |s| ==> key(s[i]) >= key(s[j])
  }

  /** Inserts `x` in front of the first element whose key is not larger than its own. */
  function InsertDesc<T>(x: T, t: seq<T>, key: T -> real): (r: seq<T>)
    ensures |r| == |t| + 1
    ensures multiset(r) == multiset(t) + multiset{x}
  {
    if t == [] || key(t[0]) <= key(x) then [x] + t
    else
      assert t == [t[0]] + t[1..];
      [t[0]] + InsertDesc(x, t[1..], key)
  }

  /** `sorted(s, key=key, reverse=True)`: Python's sort is stable, also in reverse, so equal
      keys keep their input order. */
  function SortDesc<T>(s: seq<T>, key: T -> real): (r: seq<T>)
    ensures |r| == |s|
    ensures multiset(r) == multiset(s)
  {
    if s == [] then []
    else
      assert s == [s[0]] + s[1..];
      InsertDesc(s[0], SortDesc(s[1..], key), key)
  }

  /** The elements whose key equals `v`, in order. */
  function WithKey<T>(s: seq<T>, key: T -> real, v: real): seq<T> {
    if s == [] then []
    else (if key(s[0]) == v then [s[0]] else []) + WithKey(s[1..], key, v)
  }

  lemma {:induction false} InsertDescSorted<T>(x: T, t: seq<T>, key: T -> real)
    requires SortedDesc(t, key)
    ensures SortedDesc(InsertDesc(x, t, key), key)
  {
    if t != [] && key(t[0]) > key(x) {
      var t' := t[1..];
      InsertDescSorted(x, t', key);
      var r' := InsertDesc(x, t', key);
      InsertDescBelow(x, t, key);
      assert InsertDesc(x, t, key) == [t[0]] + r';
      SortedDescCons(t[0], r', key);
    }
  }

  /** When `x` goes behind the head of a sorted `t`, everything it goes among is no larger
      than that head. */
  lemma InsertDescBelow<T>(x: T, t: seq<T>, key: T -> real)
    requires SortedDesc(t, key) && t != [] && key(t[0]) > key(x)
    ensures forall j :: 0 <= j < |InsertDesc(x, t[1..], key)| ==> key(t[0]) >= key(InsertDesc(x, t[1..], key)[j])
  {
    var t' := t[1..];
    var r' := InsertDesc(x, t', key);
    forall j | 0 <= j < |r'| ensures key(t[0]) >= key(r'[j]) {
      assert r'[j] in multiset(r');
      if r'[j] != x {
        assert r'[j] in multiset(t');
        var k :| 0 <= k < |t'| && t'[k] == r'[j];
        assert t'[k] == t[k + 1];
      }
    }
  }

  /** A head no smaller than anything behind it extends a sorted sequence. */
  lemma SortedDescCons<T>(h: T, r: seq<T>, key: T -> real)
    requires SortedDesc(r, key)
    requires forall j :: 0 <= j < |r| ==> key(h) >= key(r[j])
    ensures SortedDesc([h] + r, key)
  {
    var hr := [h] + r;
    forall i, j | 0 <= i < j < |hr| ensures key(hr[i]) >= key(hr[j]) {
      assert hr[j] == r[j - 1];
      if i > 0 {
        assert hr[i] == r[i - 1];
      }
    }
  }

  lemma {:induction false} InsertDescWithKey<T>(x: T, t: seq<T>, key: T -> real, v: real)
    ensures WithKey(InsertDesc(x, t, key), key, v) == WithKey([x] + t, key, v)
  {
    assert ([x] + t)[1..] == t;
    if t != [] && key(t[0]) > key(x) {
      var t' := t[1..];
      var r' := InsertDesc(x, t', key);
      var rest := WithKey(t', key, v);
      var hx := if key(x) == v then [x] else [];
      var ht := if key(t[0]) == v then [t[0]] else [];
      calc {
        WithKey(InsertDesc(x, t, key), key, v);
      == { assert ([t[0]] + r')[1..] == r'; }
        ht + WithKey(r', key, v);
      == { InsertDescWithKey(x, t', key, v); assert ([x] + t')[1..] == t'; }
        ht + (hx + rest);
      == { assert hx == [] || ht == []; }
        hx + (ht + rest);
      }
    }
  }

  /** The sort yields a non-increasing permutation that keeps, for every key value, the input
      order of the elements carrying it (stability). */
  lemma {:induction false} SortDescFacts<T>(s: seq<T>, key: T -> real, v: real)
    ensures SortedDesc(SortDesc(s, key), key)
    ensures WithKey(SortDesc(s, key), key, v) == WithKey(s, key, v)
  {
    if s != [] {
      SortDescFacts(s[1..], key, v);
      InsertDescSorted(s[0], SortDesc(s[1..], key), key);
      InsertDescWithKey(s[0], SortDesc(s[1..], key), key, v);
    }
  }

  // ---------------------------------------------------------------- most common

  function CountOf<T>(e: Tallied<T>): real { e.count as real }

  /** `Counter(s).most_common(n)` for `n >= 0`: the entries by count, highest first, ties in
      order of first occurrence, cut to the first `n`. */
  function MostCommon<T(==)>(s: seq<T>, n: nat): (r: seq<Tallied<T>>)
    ensures |r| <= n
  {
    var sorted := SortDesc(Tally(s), CountOf);
    if n <= |sorted| then sorted[..n] else sorted
  }

  lemma {:induction false} InsertDescDistinct<T>(x: Tallied<T>, t: seq<Tallied<T>>)
    requires KeysDistinct(t)
    requires forall e :: e in t ==> e.key != x.key
    ensures KeysDistinct(InsertDesc(x, t, CountOf))
  {
    if t != [] && CountOf(t[0]) > CountOf(x) {
      assert KeysDistinct(t[1..]);
      InsertDescDistinct(x, t[1..]);
      var r := InsertDesc(x, t[1..], CountOf);
      forall e | e in r ensures e.key != t[0].key {
        assert e in multiset(r);
        if e != x {
          assert e in multiset(t[1..]);
          var j :| 0 <= j < |t[1..]| && t[1..][j] == e;
          assert t[j + 1] == e;
        }
      }
      assert InsertDesc(x, t, CountOf) == [t[0]] + r;
    }
  }

  lemma {:induction false} SortDescDistinct<T>(t: seq<Tallied<T>>)
    requires KeysDistinct(t)
    ensures KeysDistinct(SortDesc(t, CountOf))
  {
    if t != [] {
      assert KeysDistinct(t[1..]);
      SortDescDistinct(t[1..]);
      var r := SortDesc(t[1..], CountOf);
      forall e | e in r ensures e.key != t[0].key {
        assert e in multiset(r);
        assert e in multiset(t[1..]);
        var j :| 0 <= j < |t[1..]| && t[1..][j] == e;
        assert t[j + 1] == e;
      }
      InsertDescDistinct(t[0], r);
    }
  }

  /** Every entry of the counter carries one of the input's elements and its exact count. */
  lemma TallyEntry<T>(s: seq<T>, e: Tallied<T>)
    requires e in Tally(s)
    ensures e.key in s && e.count == Count(s, e.key) && e.count >= 1
  {
    TallyCounts(s);
    TallyKeysFirst(s);
    var j :| 0 <= j < |Tally(s)| && Tally(s)[j] == e;
    assert TallyKeys(Tally(s))[j] == e.key;
  }

  /** Every entry carries one of the input's elements and its exact, positive count. */
  predicate ExactCounts<T(==)>(t: seq<Tallied<T>>, s: seq<T>) {
    forall i :: 0 <= i < |t| ==> t[i].key in s && t[i].count == Count(s, t[i].key) && t[i].count >= 1
  }

  /** The sorted counter: distinct keys, counts non-increasing, each count exact. */
  lemma SortedTallyFacts<T>(s: seq<T>)
    ensures KeysDistinct(SortDesc(Tally(s), CountOf))
    ensures SortedDesc(SortDesc(Tally(s), CountOf), CountOf)
    ensures ExactCounts(SortDesc(Tally(s), CountOf), s)
  {
    var sorted := SortDesc(Tally(s), CountOf);
    TallyDistinct(s);
    SortDescDistinct(Tally(s));
    SortDescFacts(Tally(s), CountOf, 0.0);
    forall i | 0 <= i < |sorted|
      ensures sorted[i].key in s && sorted[i].count == Count(s, sorted[i].key) && sorted[i].count >= 1
    {
      assert sorted[i] in multiset(Tally(s));
      TallyEntry(s, sorted[i]);
    }
  }

  /** A prefix of a sorted counter keeps the three properties. */
  lemma PrefixFacts<T>(sorted: seq<Tallied<T>>, r: seq<Tallied<T>>, s: seq<T>)
    requires |r| <= |sorted| && r == sorted[..|r|]
    requires KeysDistinct(sorted) && SortedDesc(sorted, CountOf) && ExactCounts(sorted, s)
    ensures KeysDistinct(r) && SortedDesc(r, CountOf) && ExactCounts(r, s)
  {
    assert forall i :: 0 <= i < |r| ==> r[i] == sorted[i];
  }

  /** `most_common(n)`: distinct keys, counts non-increasing, each count exact and positive,
      and as many entries as `n` allows. */
  lemma MostCommonEntries<T>(s: seq<T>, n: nat)
    ensures KeysDistinct(MostCommon(s, n))
    ensures SortedDesc(MostCommon(s, n), CountOf)
    ensures ExactCounts(MostCommon(s, n), s)
    ensures |MostCommon(s, n)| == if n <= |Tally(s)| then n else |Tally(s)|
  {
    SortedTallyFacts(s);
    MostCommonPrefix(s, n);
    PrefixFacts(SortDesc(Tally(s), CountOf), MostCommon(s, n), s);
  }

  /** Each element of the input has an entry, with its count, in the sorted counter. */
  lemma SortedEntryFor<T>(s: seq<T>, w: T) returns (k: nat)
    requires w in s
    ensures k < |SortDesc(Tally(s), CountOf)|
    ensures SortDesc(Tally(s), CountOf)[k].key == w
    ensures SortDesc(Tally(s), CountOf)[k].count == Count(s, w)
  {
    var t := Tally(s);
    TallyKeysFirst(s);
    var j :| 0 <= j < |t| && TallyKeys(t)[j] == w;
    var e := t[j];
    TallyEntry(s, e);
    var sorted := SortDesc(t, CountOf);
    assert e in multiset(sorted);
    k :| 0 <= k < |sorted| && sorted[k] == e;
  }

  /** `most_common(n)` is a prefix of the sorted counter. */
  lemma MostCommonPrefix<T>(s: seq<T>, n: nat)
    ensures |MostCommon(s, n)| <= |SortDesc(Tally(s), CountOf)|
    ensures MostCommon(s, n) == SortDesc(Tally(s), CountOf)[..|MostCommon(s, n)|]
  {
  }

  /** Whatever `most_common(n)` leaves out occurs no more often than anything it keeps. */
  lemma MostCommonTop<T>(s: seq<T>, n: nat, w: T)
    requires w in s && w !in TallyKeys(MostCommon(s, n))
    ensures forall i :: 0 <= i < |MostCommon(s, n)| ==> Count(s, w) <= MostCommon(s, n)[i].count
  {
    var sorted := SortDesc(Tally(s), CountOf);
    var r := MostCommon(s, n);
    MostCommonPrefix(s, n);
    var k := SortedEntryFor(s, w);
    LeftOutIndex(r, sorted, k);
    SortDescFacts(Tally(s), CountOf, 0.0);
    forall i | 0 <= i < |r| ensures Count(s, w) <= r[i].count {
      assert r[i] == sorted[i];
      assert CountOf(sorted[i]) >= CountOf(sorted[k]);
    }
  }

  lemma LeftOutIndex<T>(r: seq<Tallied<T>>, sorted: seq<Tallied<T>>, k: nat)
    requires |r| <= |sorted| && r == sorted[..|r|]
    requires k < |sorted| && sorted[k].key !in TallyKeys(r)
    ensures k >= |r|
  {
    var ks := TallyKeys(r);
    assert forall i :: 0 <= i < |r| ==> ks[i] == sorted[i].key;
  }
}
