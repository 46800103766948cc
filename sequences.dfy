/** The array pipeline operations the components apply to lists of records and rows:
    `filter`, counting and summing (`reduce`), a stable `sort` with a numeric descending
    comparator (`(a, b) => score(b) - score(a)`), and `slice(0, n)`. Folds run from the first
    element to the last, so they are defined on the prefix without the last element. */
module Sequences {

  // ---------------------------------------------------------------- filter and subsequences

  /** `s.filter(p)`. */
  function Filter<T>(s: seq<T>, p: T -> bool): (r: seq<T>)
    ensures |r| <= |s|
    ensures forall x :: x in r ==> x in s && p(x)
    decreases |s|
  {
    if s == [] then []
    else Filter(s[..|s| - 1], p) + (if p(s[|s| - 1]) then [s[|s| - 1]] else [])
  }

  /** Every element of `s` that satisfies `p` is kept. */
  lemma {:induction false} FilterKeeps<T>(s: seq<T>, p: T -> bool, x: T)
    requires x in s && p(x)
    ensures x in Filter(s, p)
    decreases |s|
  {
    if x != s[|s| - 1] {
      assert s == s[..|s| - 1] + [s[|s| - 1]];
      FilterKeeps(s[..|s| - 1], p, x);
    }
  }

  /** Filtering with a predicate that every element satisfies returns the list unchanged. */
  lemma {:induction false} FilterAll<T>(s: seq<T>, p: T -> bool)
    requires forall x :: x in s ==> p(x)
    ensures Filter(s, p) == s
    decreases |s|
  {
    if s != [] {
      var init, last := s[..|s| - 1], s[|s| - 1];
      assert s == init + [last];
      assert p(last);
      FilterAll(init, p);
    }
  }

  /** Filtering with a predicate that no element satisfies returns the empty list. */
  lemma {:induction false} FilterNone<T>(s: seq<T>, p: T -> bool)
    requires forall x :: x in s ==> !p(x)
    ensures Filter(s, p) == []
    decreases |s|
  {
    if s != [] {
      FilterNone(s[..|s| - 1], p);
    }
  }

  /** `a` can be obtained from `b` by deleting elements, keeping the order of the rest. */
  predicate IsSubsequence<T(==)>(a: seq<T>, b: seq<T>)
    decreases |b|
  {
    if a == [] then true
    else if b == [] then false
    else if a[|a| - 1] == b[|b| - 1] then IsSubsequence(a[..|a| - 1], b[..|b| - 1])
    else IsSubsequence(a, b[..|b| - 1])
  }

  lemma {:induction false} SubsequenceDropLast<T>(a: seq<T>, b: seq<T>)
    requires a != [] && IsSubsequence(a, b)
    ensures IsSubsequence(a[..|a| - 1], b)
    decreases |b|, 0
  {
    var a' := a[..|a| - 1];
    if a' != [] {
      if a[|a| - 1] == b[|b| - 1] {
        SubsequenceWeaken(a', b[..|b| - 1], b[|b| - 1]);
        assert b[..|b| - 1] + [b[|b| - 1]] == b;
      } else {
        SubsequenceDropLast(a, b[..|b| - 1]);
        SubsequenceWeaken(a', b[..|b| - 1], b[|b| - 1]);
        assert b[..|b| - 1] + [b[|b| - 1]] == b;
      }
    }
  }

  /** Appending an element to the longer list keeps the relation. */
  lemma {:induction false} SubsequenceWeaken<T>(a: seq<T>, b: seq<T>, x: T)
    requires IsSubsequence(a, b)
    ensures IsSubsequence(a, b + [x])
    decreases |b|, 1
  {
    if a != [] {
      assert (b + [x])[..|b|] == b;
      if a[|a| - 1] == x {
        SubsequenceDropLast(a, b);
      }
    }
  }

  /** `s.filter(p)` keeps the surviving elements in their original order. */
  lemma {:induction false} FilterIsSubsequence<T>(s: seq<T>, p: T -> bool)
    ensures IsSubsequence(Filter(s, p), s)
    decreases |s|
  {
    if s != [] {
      var s' := s[..|s| - 1];
      var last := s[|s| - 1];
      FilterIsSubsequence(s', p);
      var f := Filter(s', p);
      if p(last) {
        assert Filter(s, p) == f + [last];
        assert (f + [last])[..|f|] == f;
      } else {
        assert Filter(s, p) == f;
        SubsequenceWeaken(f, s', last);
        assert s' + [last] == s;
      }
    }
  }

  // ---------------------------------------------------------------- sets in insertion order

  /** `set.add(x)` on a JavaScript `Set`, listed in insertion order. */
  function AddDistinct<T(==)>(seen: seq<T>, x: T): seq<T>
  {
    if x in seen then seen else seen + [x]
  }

  /** `new Set(values)`, listed as `Array.from` lists it: each value once, in order of first occurrence. */
  function SetOf<T(==)>(values: seq<T>): seq<T>
    decreases |values|
  {
    if values == [] then [] else AddDistinct(SetOf(values[..|values| - 1]), values[|values| - 1])
  }

  predicate Distinct<T(==)>(s: seq<T>)
  {
    forall i, j :: 0 <= i < j < |s| ==> s[i] != s[j]
  }

  /** The set holds every value once, and nothing else. */
  lemma {:induction false} SetOfMembers<T>(values: seq<T>)
    ensures Distinct(SetOf(values))
    ensures forall x :: x in SetOf(values) <==> x in values
    decreases |values|
  {
    if values != [] {
      var prefix := values[..|values| - 1];
      SetOfMembers(prefix);
      assert values == prefix + [values[|values| - 1]];
    }
  }

  /** A permutation of a sequence without duplicates has no duplicates. */
  lemma PermutationDistinct<T>(s: seq<T>, t: seq<T>)
    requires multiset(s) == multiset(t) && Distinct(s)
    ensures Distinct(t)
  {
    forall x | x in multiset(s) ensures multiset(s)[x] == 1 {
      CountOnce(s, x);
    }
    forall i, j | 0 <= i < j < |t| ensures t[i] != t[j] {
      var x := t[i];
      assert x in multiset(t);
      assert t == t[..i] + [t[i]] + t[i + 1..j] + [t[j]] + t[j + 1..];
      assert multiset(t) == multiset(t[..i]) + multiset{t[i]} + multiset(t[i + 1..j]) + multiset{t[j]} + multiset(t[j + 1..]);
      assert multiset(t)[x] >= 1 + (if t[j] == x then 1 else 0);
    }
  }

  lemma {:induction false} CountOnce<T>(s: seq<T>, x: T)
    requires Distinct(s) && x in s
    ensures multiset(s)[x] == 1
    decreases |s|
  {
    if s[0] == x {
      assert x !in s[1..];
    } else {
      CountOnce(s[1..], x);
    }
    assert s == [s[0]] + s[1..];
  }

  // ---------------------------------------------------------------- mapping, counting and summing

  /** `s.map(f)`. */
  function Map<T, U>(s: seq<T>, f: T -> U): (r: seq<U>)
    ensures |r| == |s|
    ensures forall i :: 0 <= i < |s| ==> r[i] == f(s[i])
    decreases |s|
  {
    if s == [] then [] else Map(s[..|s| - 1], f) + [f(s[|s| - 1])]
  }

  /** Mapping a sequence extended by one element extends the mapped sequence by its image. */
  lemma MapAppend<T, U>(s: seq<T>, x: T, f: T -> U)
    ensures Map(s + [x], f) == Map(s, f) + [f(x)]
  {
    assert (s + [x])[..|s|] == s;
  }

  /** `s.filter(p).length`. */
  function Count<T>(s: seq<T>, p: T -> bool): (n: nat)
    ensures n <= |s|
    decreases |s|
  {
    if s == [] then 0 else Count(s[..|s| - 1], p) + (if p(s[|s| - 1]) then 1 else 0)
  }

  /** `s.reduce((sum, x) => sum + f(x), 0)` over numbers. */
  function Sum<T>(s: seq<T>, f: T -> real): real
    decreases |s|
  {
    if s == [] then 0.0 else Sum(s[..|s| - 1], f) + f(s[|s| - 1])
  }

  /** The same fold over integers. */
  function SumInt<T>(s: seq<T>, f: T -> int): int
    decreases |s|
  {
    if s == [] then 0 else SumInt(s[..|s| - 1], f) + f(s[|s| - 1])
  }

  /** A predicate that holds for no element counts none. */
  lemma {:induction false} CountNone<T>(s: seq<T>, p: T -> bool)
    requires forall x :: x in s ==> !p(x)
    ensures Count(s, p) == 0
    decreases |s|
  {
    if s != [] {
      assert s[|s| - 1] in s;
      CountNone(s[..|s| - 1], p);
    }
  }

  /** 1 where `p` holds, 0 elsewhere. */
  function Indicator<T>(p: T -> bool): T -> int
  {
    (x: T) => if p(x) then 1 else 0
  }

  /** Adding up the indicator of `p` counts the elements satisfying `p`. */
  lemma {:induction false} CountIndicator<T>(s: seq<T>, p: T -> bool)
    ensures SumInt(s, Indicator(p)) == Count(s, p)
    decreases |s|
  {
    if s != [] {
      CountIndicator(s[..|s| - 1], p);
    }
  }

  /** The sum splits off the first element as well as the last. */
  lemma {:induction false} SumIntCons<T>(x: T, s: seq<T>, f: T -> int)
    ensures SumInt([x] + s, f) == f(x) + SumInt(s, f)
    decreases |s|
  {
    if s != [] {
      SumIntCons(x, s[..|s| - 1], f);
      assert ([x] + s)[..|s|] == [x] + s[..|s| - 1];
    }
  }

  /** Adding up a function that is zero on every element gives zero. */
  lemma {:induction false} SumIntZero<T>(s: seq<T>, f: T -> int)
    requires forall i :: 0 <= i < |s| ==> f(s[i]) == 0
    ensures SumInt(s, f) == 0
    decreases |s|
  {
    if s != [] {
      SumIntZero(s[..|s| - 1], f);
    }
  }

  /** When `g` exceeds `f` by `c` at one value `x` of a list without duplicates and agrees with it
      elsewhere, the sums differ by `c` if `x` is in the list and not at all otherwise. */
  lemma {:induction false} SumIntAddAt<T>(s: seq<T>, f: T -> int, g: T -> int, x: T, c: int)
    requires Distinct(s)
    requires forall i :: 0 <= i < |s| ==> g(s[i]) == f(s[i]) + (if s[i] == x then c else 0)
    ensures SumInt(s, g) == SumInt(s, f) + (if x in s then c else 0)
    decreases |s|
  {
    if s != [] {
      var prefix := s[..|s| - 1];
      SumIntAddAt(prefix, f, g, x, c);
      assert s == prefix + [s[|s| - 1]];
      if s[|s| - 1] == x {
        assert x !in prefix;
      }
    }
  }

  /** Adding up `g` over the mapped list adds up `h` over the list, for any `h` that is `g` after the mapping. */
  lemma {:induction false} SumIntMap<T, U>(s: seq<T>, f: T -> U, g: U -> int, h: T -> int)
    requires forall i :: 0 <= i < |s| ==> h(s[i]) == g(f(s[i]))
    ensures SumInt(Map(s, f), g) == SumInt(s, h)
    decreases |s|
  {
    if s != [] {
      SumIntMap(s[..|s| - 1], f, g, h);
      assert Map(s, f)[..|s| - 1] == Map(s[..|s| - 1], f);
    }
  }

  lemma {:induction false} CountFilter<T>(s: seq<T>, p: T -> bool)
    ensures Count(s, p) == |Filter(s, p)|
    decreases |s|
  {
    if s != [] {
      CountFilter(s[..|s| - 1], p);
    }
  }

  // ---------------------------------------------------------------- stable descending sort

  /** Descending by `score`: `(a, b) => score(b) - score(a)` never returns a positive number for neighbours. */
  predicate SortedDesc<T>(s: seq<T>, score: T -> real)
  {
    forall i, j :: 0 <= i < j < |s| ==> score(s[i]) >= score(s[j])
  }

  /** Inserts `x` before the first element whose score is not greater than its own. */
  function InsertDesc<T>(x: T, s: seq<T>, score: T -> real): (r: seq<T>)
    ensures multiset(r) == multiset(s) + multiset{x}
    ensures |r| == |s| + 1
    decreases |s|
  {
    if s == [] then [x]
    else if score(s[0]) <= score(x) then [x] + s
    else assert s == [s[0]] + s[1..]; [s[0]] + InsertDesc(x, s[1..], score)
  }

  /** `[...s].sort((a, b) => score(b) - score(a))`: a stable insertion sort. */
  function SortDesc<T>(s: seq<T>, score: T -> real): (r: seq<T>)
    ensures multiset(r) == multiset(s)
    ensures |r| == |s|
    decreases |s|
  {
    if s == [] then [] else assert s == [s[0]] + s[1..]; InsertDesc(s[0], SortDesc(s[1..], score), score)
  }

  lemma {:induction false} InsertDescSorted<T>(x: T, s: seq<T>, score: T -> real)
    requires SortedDesc(s, score)
    ensures SortedDesc(InsertDesc(x, s, score), score)
    decreases |s|
  {
    if s != [] && score(s[0]) > score(x) {
      InsertDescSorted(x, s[1..], score);
      var r := InsertDesc(x, s[1..], score);
      assert InsertDesc(x, s, score) == [s[0]] + r;
      forall y | y in s[1..] ensures score(y) <= score(s[0]) {
        var k :| 0 <= k < |s[1..]| && s[1..][k] == y;
        assert s[k + 1] == y;
      }
      BoundedByFirst(s[0], r, s[1..], x, score);
    }
  }

  /** A first element that scores at least as high as every element of a descending list, made
      of the elements of `u` and `x`, keeps it descending. */
  lemma BoundedByFirst<T>(a: T, r: seq<T>, u: seq<T>, x: T, score: T -> real)
    requires SortedDesc(r, score) && multiset(r) == multiset(u) + multiset{x}
    requires forall y :: y in u ==> score(y) <= score(a)
    requires score(x) <= score(a)
    ensures SortedDesc([a] + r, score)
  {
    forall j | 0 <= j < |r| ensures score(r[j]) <= score(a) {
      assert r[j] in multiset(u) + multiset{x};
      if r[j] != x {
        assert r[j] in u;
      }
    }
    forall i, j | 0 <= i < j < |[a] + r| ensures score(([a] + r)[i]) >= score(([a] + r)[j]) {
      assert ([a] + r)[j] == r[j - 1];
      if i > 0 {
        assert ([a] + r)[i] == r[i - 1];
      }
    }
  }

  lemma {:induction false} SortDescSorted<T>(s: seq<T>, score: T -> real)
    ensures SortedDesc(SortDesc(s, score), score)
    decreases |s|
  {
    if s != [] {
      SortDescSorted(s[1..], score);
      InsertDescSorted(s[0], SortDesc(s[1..], score), score);
    }
  }

  /** The elements of `s` whose score is `v`, in order. */
  function WithScore<T>(s: seq<T>, score: T -> real, v: real): seq<T>
    decreases |s|
  {
    if s == [] then [] else (if score(s[0]) == v then [s[0]] else []) + WithScore(s[1..], score, v)
  }

  lemma {:induction false} InsertDescStable<T>(x: T, s: seq<T>, score: T -> real, v: real)
    ensures WithScore(InsertDesc(x, s, score), score, v) == WithScore([x] + s, score, v)
    decreases |s|
  {
    if s != [] && score(s[0]) > score(x) {
      var t := InsertDesc(x, s[1..], score);
      assert InsertDesc(x, s, score) == [s[0]] + t;
      InsertDescStable(x, s[1..], score, v);
      assert [s[0]] + s[1..] == s;
      WithScoreSwap(s[0], x, s[1..], t, score, v);
    }
  }

  /** Putting a higher-scoring element first does not change the order among equal scores. */
  lemma WithScoreSwap<T>(a: T, x: T, u: seq<T>, t: seq<T>, score: T -> real, v: real)
    requires score(a) > score(x)
    requires WithScore(t, score, v) == WithScore([x] + u, score, v)
    ensures WithScore([a] + t, score, v) == WithScore([x] + ([a] + u), score, v)
  {
    WithScoreCons(a, t, score, v);
    WithScoreCons(x, u, score, v);
    WithScoreCons(x, [a] + u, score, v);
    WithScoreCons(a, u, score, v);
    var rest := WithScore(u, score, v);
    if score(x) == v {
      assert WithScore([a] + t, score, v) == [x] + rest;
    } else if score(a) == v {
      assert WithScore([a] + t, score, v) == [a] + rest;
    }
  }

  /** `WithScore` of a list with a first element. */
  lemma WithScoreCons<T>(a: T, t: seq<T>, score: T -> real, v: real)
    ensures WithScore([a] + t, score, v) == (if score(a) == v then [a] else []) + WithScore(t, score, v)
  {
    assert ([a] + t)[1..] == t;
  }

  /** The sort is stable: records with equal score keep their relative input order. */
  lemma {:induction false} SortDescStable<T>(s: seq<T>, score: T -> real, v: real)
    ensures WithScore(SortDesc(s, score), score, v) == WithScore(s, score, v)
    decreases |s|
  {
    if s != [] {
      SortDescStable(s[1..], score, v);
      InsertDescStable(s[0], SortDesc(s[1..], score), score, v);
      assert ([s[0]] + SortDesc(s[1..], score))[1..] == SortDesc(s[1..], score);
      assert s == [s[0]] + s[1..];
    }
  }

  // ---------------------------------------------------------------- top n

  /** `s.slice(0, n)`. */
  function Take<T>(s: seq<T>, n: nat): (r: seq<T>)
    ensures |r| == if |s| <= n then |s| else n
    ensures r == s[..|r|]
  {
    if |s| <= n then s else s[..n]
  }

  /** `[...s].sort((a, b) => score(b) - score(a)).slice(0, n)`. */
  function TopBy<T>(s: seq<T>, score: T -> real, n: nat): seq<T>
  {
    Take(SortDesc(s, score), n)
  }

  /** In a descending list every element after position k scores no higher than any before it. */
  lemma SortedSplit<T>(t: seq<T>, score: T -> real, k: nat)
    requires SortedDesc(t, score) && k <= |t|
    ensures forall x, y :: x in t[k..] && y in t[..k] ==> score(x) <= score(y)
  {
    forall x, y | x in t[k..] && y in t[..k] ensures score(x) <= score(y) {
      var i :| 0 <= i < |t[k..]| && t[k..][i] == x;
      var j :| 0 <= j < k && t[..k][j] == y;
      assert t[j] == y && t[k + i] == x;
    }
  }

  /** The top-n list is sorted descending, holds at most n records taken from `s` (all of them
      when there are no more than n), and every record left out scores no higher than any kept one. */
  lemma TopByProperties<T>(s: seq<T>, score: T -> real, n: nat)
    ensures var r := TopBy(s, score, n);
      && SortedDesc(r, score)
      && |r| == (if |s| <= n then |s| else n)
      && multiset(r) <= multiset(s)
      && (forall x, y :: x in multiset(s) - multiset(r) && y in r ==> score(x) <= score(y))
  {
    var sorted := SortDesc(s, score);
    SortDescSorted(s, score);
    var r := Take(sorted, n);
    var rest := sorted[|r|..];
    assert sorted == r + rest;
    assert multiset(s) - multiset(r) == multiset(rest);
    SortedSplit(sorted, score, |r|);
    assert r == sorted[..|r|];
  }
}
