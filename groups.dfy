/** Keyed accumulators as the components build them with a JavaScript `Map` or a plain object:
    an association list in insertion order, where `get` finds the entry of a key and `set`
    replaces it in place or appends a new entry. A group-by fold reads the current accumulator of
    a record's key (or a fresh one built from the record), adds the record and stores the result. */
module Groups {
  import opened Values
  import opened Text
  import opened Sequences

  datatype Entry<K, A> = Entry(key: K, acc: A)

  /** `Array.from(map.keys())`. */
  function Keys<K, A>(t: seq<Entry<K, A>>): (ks: seq<K>)
    ensures |ks| == |t|
    ensures forall i :: 0 <= i < |t| ==> ks[i] == t[i].key
  {
    if t == [] then [] else [t[0].key] + Keys(t[1..])
  }

  predicate DistinctKeys<K(==), A>(t: seq<Entry<K, A>>)
  {
    forall i, j :: 0 <= i < j < |t| ==> t[i].key != t[j].key
  }

  /** `map.get(k)`. */
  function Find<K(==), A>(t: seq<Entry<K, A>>, k: K): (r: Option<A>)
    ensures r.None? <==> k !in Keys(t)
    ensures r.Some? ==> Entry(k, r.value) in t
  {
    if t == [] then None
    else if t[0].key == k then Some(t[0].acc)
    else Find(t[1..], k)
  }

  /** `map.set(k, a)`: the entry of `k` is replaced where it stands, or appended when `k` is new. */
  function Put<K(==), A>(t: seq<Entry<K, A>>, k: K, a: A): (r: seq<Entry<K, A>>)
    ensures Keys(r) == if k in Keys(t) then Keys(t) else Keys(t) + [k]
    ensures Find(r, k) == Some(a)
  {
    if t == [] then [Entry(k, a)]
    else if t[0].key == k then
      PutHere(t, k, a);
      [Entry(k, a)] + t[1..]
    else
      var rest := Put(t[1..], k, a);
      PutFurther(t, k, rest);
      ConsFind(t[0], rest, k);
      [t[0]] + rest
  }

  /** Overwriting the first entry keeps the keys and stores the new value. */
  lemma PutHere<K, A>(t: seq<Entry<K, A>>, k: K, a: A)
    requires t != [] && t[0].key == k
    ensures Keys([Entry(k, a)] + t[1..]) == Keys(t)
    ensures k in Keys(t)
    ensures Find([Entry(k, a)] + t[1..], k) == Some(a)
  {
    ConsKeys(Entry(k, a), t[1..]);
    ConsFind(Entry(k, a), t[1..], k);
  }

  /** Storing past a first entry with another key keeps that entry in front. */
  lemma PutFurther<K, A>(t: seq<Entry<K, A>>, k: K, rest: seq<Entry<K, A>>)
    requires t != [] && t[0].key != k
    requires Keys(rest) == if k in Keys(t[1..]) then Keys(t[1..]) else Keys(t[1..]) + [k]
    ensures Keys([t[0]] + rest) == if k in Keys(t) then Keys(t) else Keys(t) + [k]
  {
    ConsKeys(t[0], rest);
    var head, tail := t[0].key, Keys(t[1..]);
    assert Keys(t) == [head] + tail;
    assert k in Keys(t) <==> k in tail;
    if k !in tail {
      assert [head] + (tail + [k]) == ([head] + tail) + [k];
    }
  }

  /** The keys of a table with one more entry in front. */
  lemma ConsKeys<K, A>(e: Entry<K, A>, t: seq<Entry<K, A>>)
    ensures Keys([e] + t) == [e.key] + Keys(t)
  {
    assert ([e] + t)[1..] == t;
  }

  /** A lookup in a table with one more entry in front. */
  lemma ConsFind<K, A>(e: Entry<K, A>, t: seq<Entry<K, A>>, k: K)
    ensures Find([e] + t, k) == if e.key == k then Some(e.acc) else Find(t, k)
  {
    assert ([e] + t)[1..] == t;
  }

  /** `set` adds no entry other than the one it stores. */
  lemma {:induction false} PutEntries<K, A>(t: seq<Entry<K, A>>, k: K, a: A, e: Entry<K, A>)
    requires e in Put(t, k, a)
    ensures e in t || e == Entry(k, a)
  {
    if t != [] && t[0].key != k && e != t[0] {
      PutEntries(t[1..], k, a, e);
    }
  }

  /** `set` leaves the other keys' entries as they were. */
  lemma {:induction false} PutOther<K, A>(t: seq<Entry<K, A>>, k: K, a: A, j: K)
    requires j != k
    ensures Find(Put(t, k, a), j) == Find(t, j)
  {
    if t != [] && t[0].key != k {
      PutOther(t[1..], k, a, j);
    }
  }

  lemma PutDistinct<K, A>(t: seq<Entry<K, A>>, k: K, a: A)
    requires DistinctKeys(t)
    ensures DistinctKeys(Put(t, k, a))
  {
    var r := Put(t, k, a);
    forall i, j | 0 <= i < j < |r| ensures r[i].key != r[j].key {
      assert Keys(r)[i] == r[i].key && Keys(r)[j] == r[j].key;
      if k in Keys(t) {
        assert Keys(t)[i] == t[i].key && Keys(t)[j] == t[j].key;
      } else if j == |t| {
        assert Keys(t)[i] == t[i].key;
      } else {
        assert Keys(t)[i] == t[i].key && Keys(t)[j] == t[j].key;
      }
    }
  }

  /** The sum of a measure over all accumulators. */
  function SumBy<K, A>(t: seq<Entry<K, A>>, m: A -> int): int
  {
    if t == [] then 0 else m(t[0].acc) + SumBy(t[1..], m)
  }

  /** The sum over the accumulators is the sum over their images under `f`, for a measure `h`
      that reads off an image what `m` reads off the accumulator. */
  lemma {:induction false} SumByMap<K, A, U>(t: seq<Entry<K, A>>, m: A -> int, f: Entry<K, A> -> U, h: U -> int)
    requires forall i :: 0 <= i < |t| ==> h(f(t[i])) == m(t[i].acc)
    ensures SumInt(Map(t, f), h) == SumBy(t, m)
    decreases |t|
  {
    if t != [] {
      SumByMap(t[1..], m, f, h);
      assert Map(t, f) == [f(t[0])] + Map(t[1..], f);
      SumIntCons(f(t[0]), Map(t[1..], f), h);
    }
  }

  /** Storing a new accumulator changes the sum by the difference to the one it replaces. */
  lemma {:induction false} SumPut<K, A>(t: seq<Entry<K, A>>, k: K, a: A, m: A -> int)
    ensures SumBy(Put(t, k, a), m) == SumBy(t, m) + m(a) - (match Find(t, k) case Some(prev) => m(prev) case None => 0)
  {
    if t != [] && t[0].key != k {
      SumPut(t[1..], k, a, m);
    }
  }

  /** `map.get(k)?.m ?? 0`. */
  function Lookup<K(==), A>(t: seq<Entry<K, A>>, k: K, m: A -> int): int
  {
    match Find(t, k)
    case Some(a) => m(a)
    case None => 0
  }

  /** Looking up every key of a list without duplicates that holds all stored keys, and adding
      up what is found (0 for a missing key), gives the sum over the map. */
  lemma {:induction false} SumLookups<K, A>(ks: seq<K>, t: seq<Entry<K, A>>, m: A -> int, f: K -> int)
    requires Distinct(ks) && DistinctKeys(t)
    requires forall i :: 0 <= i < |t| ==> t[i].key in ks
    requires forall i :: 0 <= i < |ks| ==> f(ks[i]) == Lookup(t, ks[i], m)
    ensures SumInt(ks, f) == SumBy(t, m)
    decreases |t|
  {
    if t == [] {
      SumIntZero(ks, f);
    } else {
      var e := t[0];
      var rest := t[1..];
      assert DistinctKeys(rest) by {
        forall i, j | 0 <= i < j < |rest| ensures rest[i].key != rest[j].key {
          assert rest[i] == t[i + 1] && rest[j] == t[j + 1];
        }
      }
      assert e.key !in Keys(rest) by {
        forall i | 0 <= i < |rest| ensures Keys(rest)[i] != e.key {
          assert rest[i] == t[i + 1];
        }
      }
      var f' := (k: K) => Lookup(rest, k, m);
      assert SumInt(ks, f') == SumBy(rest, m) by {
        forall i | 0 <= i < |rest| ensures rest[i].key in ks {
          assert rest[i] == t[i + 1];
        }
        SumLookups(ks, rest, m, f');
      }
      assert SumInt(ks, f) == SumInt(ks, f') + m(e.acc) by {
        forall i | 0 <= i < |ks| ensures f(ks[i]) == f'(ks[i]) + (if ks[i] == e.key then m(e.acc) else 0) {
          LookupFirst(t, ks[i], m);
        }
        SumIntAddAt(ks, f', f, e.key, m(e.acc));
        assert e.key in ks;
      }
    }
  }

  /** Looking up in a list whose first key occurs only there. */
  lemma LookupFirst<K, A>(t: seq<Entry<K, A>>, k: K, m: A -> int)
    requires t != [] && t[0].key !in Keys(t[1..])
    ensures Lookup(t, k, m) == Lookup(t[1..], k, m) + (if k == t[0].key then m(t[0].acc) else 0)
  {
  }

  // ---------------------------------------------------------------- the group-by fold

  /** The accumulator a record is added to: the stored one of its key, or a fresh one. */
  function Current<R, K(==), A>(t: seq<Entry<K, A>>, k: K, r: R, init: R -> A): A
  {
    match Find(t, k)
    case Some(a) => a
    case None => init(r)
  }

  /** `records.forEach(r => { const k = key(r); if (k !== undefined) map.set(k, add(map.get(k) || init(r), r)) })`. */
  function GroupBy<R, K(==), A>(s: seq<R>, key: R -> Option<K>, init: R -> A, add: (A, R) -> A): (t: seq<Entry<K, A>>)
    decreases |s|
  {
    if s == [] then []
    else
      var t := GroupBy(s[..|s| - 1], key, init, add);
      var r := s[|s| - 1];
      match key(r)
      case None => t
      case Some(k) => Put(t, k, add(Current(t, k, r, init), r))
  }

  /** One more record with key `k`: the fold over the first i + 1 records stores the (i + 1)-th
      into the fold over the first i. */
  lemma GroupByStepKeyed<R, K, A>(s: seq<R>, i: nat, key: R -> Option<K>, init: R -> A, add: (A, R) -> A, k: K)
    requires i < |s| && key(s[i]) == Some(k)
    ensures var t := GroupBy(s[..i], key, init, add);
      GroupBy(s[..i + 1], key, init, add) == Put(t, k, add(Current(t, k, s[i], init), s[i]))
  {
    assert s[..i + 1][..i] == s[..i] && s[..i + 1][i] == s[i];
  }

  /** One more record without a key leaves the fold as it was. */
  lemma GroupByStepUnkeyed<R, K, A>(s: seq<R>, i: nat, key: R -> Option<K>, init: R -> A, add: (A, R) -> A)
    requires i < |s| && key(s[i]).None?
    ensures GroupBy(s[..i + 1], key, init, add) == GroupBy(s[..i], key, init, add)
  {
    assert s[..i + 1][..i] == s[..i] && s[..i + 1][i] == s[i];
  }

  /** The records filed under `k`, in input order. */
  function Group<R, K(==)>(s: seq<R>, key: R -> Option<K>, k: K): (g: seq<R>)
    ensures forall r :: r in g ==> r in s && key(r) == Some(k)
    decreases |s|
  {
    if s == [] then []
    else Group(s[..|s| - 1], key, k) + (if key(s[|s| - 1]) == Some(k) then [s[|s| - 1]] else [])
  }

  /** The accumulator a non-empty group folds to, started from its first record. */
  function Accumulate<R, A>(g: seq<R>, init: R -> A, add: (A, R) -> A): A
    requires |g| > 0
    decreases |g|
  {
    if |g| == 1 then add(init(g[0]), g[0]) else add(Accumulate(g[..|g| - 1], init, add), g[|g| - 1])
  }

  /** The fold stores, under each key, exactly the accumulation of that key's records in input
      order, and stores nothing for a key no record carries. */
  lemma {:induction false} GroupByFind<R, K, A>(s: seq<R>, key: R -> Option<K>, init: R -> A, add: (A, R) -> A, k: K)
    ensures var g := Group(s, key, k);
      Find(GroupBy(s, key, init, add), k) == if g == [] then None else Some(Accumulate(g, init, add))
    decreases |s|
  {
    if s != [] {
      var s' := s[..|s| - 1];
      var r := s[|s| - 1];
      var t := GroupBy(s', key, init, add);
      GroupByFind(s', key, init, add, k);
      var g' := Group(s', key, k);
      match key(r)
      case None =>
        assert Group(s, key, k) == g';
      case Some(j) =>
        var a := add(Current(t, j, r, init), r);
        assert GroupBy(s, key, init, add) == Put(t, j, a);
        if j != k {
          PutOther(t, j, a, k);
          assert Group(s, key, k) == g';
        } else {
          var g := g' + [r];
          assert Group(s, key, k) == g;
          assert g[..|g| - 1] == g';
        }
    }
  }

  /** Each key is stored once. */
  lemma {:induction false} GroupByDistinct<R, K, A>(s: seq<R>, key: R -> Option<K>, init: R -> A, add: (A, R) -> A)
    ensures DistinctKeys(GroupBy(s, key, init, add))
    decreases |s|
  {
    if s != [] {
      var t := GroupBy(s[..|s| - 1], key, init, add);
      GroupByDistinct(s[..|s| - 1], key, init, add);
      var r := s[|s| - 1];
      if key(r).Some? {
        PutDistinct(t, key(r).value, add(Current(t, key(r).value, r, init), r));
      }
    }
  }

  /** The stored keys are exactly the keys some record carries. */
  lemma GroupByKeys<R, K, A>(s: seq<R>, key: R -> Option<K>, init: R -> A, add: (A, R) -> A, k: K)
    ensures k in Keys(GroupBy(s, key, init, add)) <==> Group(s, key, k) != []
  {
    GroupByFind(s, key, init, add, k);
  }

  /** Every record that carries a key is filed under it, so its key is stored. */
  lemma {:induction false} GroupHas<R, K, A>(s: seq<R>, key: R -> Option<K>, init: R -> A, add: (A, R) -> A, r: R)
    requires r in s && key(r).Some?
    ensures r in Group(s, key, key(r).value)
    ensures key(r).value in Keys(GroupBy(s, key, init, add))
    decreases |s|
  {
    if s[|s| - 1] != r {
      assert r in s[..|s| - 1] by {
        var i :| 0 <= i < |s| && s[i] == r;
        assert s[..|s| - 1][i] == r;
      }
      GroupHas(s[..|s| - 1], key, init, add, r);
    }
    GroupByKeys(s, key, init, add, key(r).value);
  }

  /** An invariant that every fresh accumulator gets after its first record, and that adding a
      record preserves, holds of every stored accumulator. */
  lemma {:induction false} GroupByInvariant<R(!new), K, A(!new)>(s: seq<R>, key: R -> Option<K>, init: R -> A, add: (A, R) -> A, inv: A -> bool)
    requires forall r :: inv(add(init(r), r))
    requires forall a, r :: inv(a) ==> inv(add(a, r))
    ensures forall e :: e in GroupBy(s, key, init, add) ==> inv(e.acc)
    decreases |s|
  {
    if s != [] {
      var t := GroupBy(s[..|s| - 1], key, init, add);
      GroupByInvariant(s[..|s| - 1], key, init, add, inv);
      var r := s[|s| - 1];
      if key(r).Some? {
        var k := key(r).value;
        var a := add(Current(t, k, r, init), r);
        assert inv(a);
        forall e | e in Put(t, k, a) ensures inv(e.acc) {
          PutEntries(t, k, a, e);
        }
      }
    }
  }

  /** When every record carries a key and adds exactly one to a counter that starts at zero, the
      counters of all groups together count the input. */
  lemma {:induction false} GroupByCount<R(!new), K, A(!new)>(s: seq<R>, key: R -> Option<K>, init: R -> A, add: (A, R) -> A, count: A -> int)
    requires forall r :: r in s ==> key(r).Some?
    requires forall r :: count(init(r)) == 0
    requires forall a, r :: count(add(a, r)) == count(a) + 1
    ensures SumBy(GroupBy(s, key, init, add), count) == |s|
    decreases |s|
  {
    if s != [] {
      var s' := s[..|s| - 1];
      var t := GroupBy(s', key, init, add);
      GroupByCount(s', key, init, add, count);
      var r := s[|s| - 1];
      assert r in s;
      var k := key(r).value;
      SumPut(t, k, add(Current(t, k, r, init), r), count);
    }
  }

  /** When the records that carry a key (those satisfying `p`) add exactly one to a counter that
      starts at zero, the counters of all groups together count those records. */
  lemma {:induction false} GroupByCountWhere<R(!new), K, A(!new)>(s: seq<R>, key: R -> Option<K>, init: R -> A, add: (A, R) -> A, count: A -> int, p: R -> bool)
    requires forall r :: p(r) <==> key(r).Some?
    requires forall r :: count(init(r)) == 0
    requires forall a, r :: count(add(a, r)) == count(a) + 1
    ensures SumBy(GroupBy(s, key, init, add), count) == Count(s, p)
    decreases |s|
  {
    if s != [] {
      var s' := s[..|s| - 1];
      var t := GroupBy(s', key, init, add);
      GroupByCountWhere(s', key, init, add, count, p);
      var r := s[|s| - 1];
      if key(r).Some? {
        var k := key(r).value;
        SumPut(t, k, add(Current(t, k, r, init), r), count);
      }
    }
  }

  /** An accumulator that counts its records counts the whole group. */
  lemma {:induction false} AccumulateCount<R(!new), A(!new)>(g: seq<R>, init: R -> A, add: (A, R) -> A, m: A -> int)
    requires |g| > 0
    requires forall r :: m(init(r)) == 0
    requires forall a, r :: m(add(a, r)) == m(a) + 1
    ensures m(Accumulate(g, init, add)) == |g|
    decreases |g|
  {
    if |g| > 1 {
      AccumulateCount(g[..|g| - 1], init, add, m);
    }
  }

  /** A measure that starts at zero and grows by `f(r)` with each record sums `f` over the group. */
  lemma {:induction false} AccumulateSum<R(!new), A(!new)>(g: seq<R>, init: R -> A, add: (A, R) -> A, m: A -> real, f: R -> real)
    requires |g| > 0
    requires forall r :: m(init(r)) == 0.0
    requires forall a, r :: m(add(a, r)) == m(a) + f(r)
    ensures m(Accumulate(g, init, add)) == Sum(g, f)
    decreases |g|
  {
    var g' := g[..|g| - 1];
    if |g| > 1 {
      AccumulateSum(g', init, add, m, f);
      assert m(add(Accumulate(g', init, add), g[|g| - 1])) == m(Accumulate(g', init, add)) + f(g[|g| - 1]);
    } else {
      assert g' == [];
      assert m(add(init(g[0]), g[0])) == m(init(g[0])) + f(g[0]);
    }
  }

  /** The integer version: a counter that starts at zero and grows by `f(r)` with each record. */
  lemma {:induction false} AccumulateSumInt<R(!new), A(!new)>(g: seq<R>, init: R -> A, add: (A, R) -> A, m: A -> int, f: R -> int)
    requires |g| > 0
    requires forall r :: m(init(r)) == 0
    requires forall a, r :: m(add(a, r)) == m(a) + f(r)
    ensures m(Accumulate(g, init, add)) == SumInt(g, f)
    decreases |g|
  {
    var g' := g[..|g| - 1];
    if |g| > 1 {
      AccumulateSumInt(g', init, add, m, f);
      assert m(add(Accumulate(g', init, add), g[|g| - 1])) == m(Accumulate(g', init, add)) + f(g[|g| - 1]);
    } else {
      assert g' == [];
      assert m(add(init(g[0]), g[0])) == m(init(g[0])) + f(g[0]);
    }
  }

  /** A field that the fresh accumulator takes from the record and that adding never changes
      keeps the value of the group's first record. */
  lemma {:induction false} AccumulateFirst<R(!new), A(!new), V>(g: seq<R>, init: R -> A, add: (A, R) -> A, field: A -> V, from: R -> V)
    requires |g| > 0
    requires forall r :: field(init(r)) == from(r)
    requires forall a, r :: field(add(a, r)) == field(a)
    ensures field(Accumulate(g, init, add)) == from(g[0])
    decreases |g|
  {
    var g' := g[..|g| - 1];
    if |g| > 1 {
      AccumulateFirst(g', init, add, field, from);
      assert g'[0] == g[0];
      assert field(add(Accumulate(g', init, add), g[|g| - 1])) == field(Accumulate(g', init, add));
    } else {
      assert field(add(init(g[0]), g[0])) == field(init(g[0]));
    }
  }

  // ---------------------------------------------------------------- ordering by key

  predicate SortedByKey<A>(t: seq<Entry<string, A>>)
  {
    forall i, j :: 0 <= i < j < |t| ==> StrLe(t[i].key, t[j].key)
  }

  function InsertByKey<A>(e: Entry<string, A>, t: seq<Entry<string, A>>): (r: seq<Entry<string, A>>)
    ensures multiset(r) == multiset(t) + multiset{e}
    ensures |r| == |t| + 1
  {
    if t == [] then [e]
    else if StrLe(e.key, t[0].key) then [e] + t
    else assert t == [t[0]] + t[1..]; [t[0]] + InsertByKey(e, t[1..])
  }

  /** `entries.sort((a, b) => a[0].localeCompare(b[0]))` on keys made of digits and '-'. */
  function SortByKey<A>(t: seq<Entry<string, A>>): (r: seq<Entry<string, A>>)
    ensures multiset(r) == multiset(t)
    ensures |r| == |t|
  {
    if t == [] then [] else assert t == [t[0]] + t[1..]; InsertByKey(t[0], SortByKey(t[1..]))
  }

  lemma {:induction false} InsertByKeySorted<A>(e: Entry<string, A>, t: seq<Entry<string, A>>)
    requires SortedByKey(t)
    ensures SortedByKey(InsertByKey(e, t))
  {
    if t != [] {
      if StrLe(e.key, t[0].key) {
        forall j | 2 <= j < |t| + 1 ensures StrLe(e.key, ([e] + t)[j].key) {
          StrLeTransitive(e.key, t[0].key, t[j - 1].key);
        }
      } else {
        StrLeTotal(e.key, t[0].key);
        InsertByKeySorted(e, t[1..]);
        var r := InsertByKey(e, t[1..]);
        forall j | 0 <= j < |r| ensures StrLe(t[0].key, r[j].key) {
          assert r[j] in multiset(t[1..]) + multiset{e};
          if r[j] != e {
            assert r[j] in t[1..];
          }
        }
      }
    }
  }

  lemma {:induction false} SortByKeySorted<A>(t: seq<Entry<string, A>>)
    ensures SortedByKey(SortByKey(t))
  {
    if t != [] {
      SortByKeySorted(t[1..]);
      InsertByKeySorted(t[0], SortByKey(t[1..]));
    }
  }

  lemma {:induction false} InsertByKeySum<A>(e: Entry<string, A>, t: seq<Entry<string, A>>, m: A -> int)
    ensures SumBy(InsertByKey(e, t), m) == m(e.acc) + SumBy(t, m)
    decreases |t|
  {
    if t != [] && !StrLe(e.key, t[0].key) {
      InsertByKeySum(e, t[1..], m);
      assert ([t[0]] + InsertByKey(e, t[1..]))[1..] == InsertByKey(e, t[1..]);
    } else if t != [] {
      assert ([e] + t)[1..] == t;
    }
  }

  /** Sorting does not change the sum of a measure over the accumulators. */
  lemma {:induction false} SortByKeySum<A>(t: seq<Entry<string, A>>, m: A -> int)
    ensures SumBy(SortByKey(t), m) == SumBy(t, m)
    decreases |t|
  {
    if t != [] {
      SortByKeySum(t[1..], m);
      InsertByKeySum(t[0], SortByKey(t[1..]), m);
    }
  }

  /** Sorting keeps each key with its own accumulator, so lookups are unchanged. */
  lemma SortByKeyFind<A>(t: seq<Entry<string, A>>, k: string)
    requires DistinctKeys(t)
    ensures DistinctKeys(SortByKey(t))
    ensures Find(SortByKey(t), k) == Find(t, k)
  {
    var r := SortByKey(t);
    PermutationDistinctKeys(t, r);
    match Find(t, k)
    case None =>
      forall i | 0 <= i < |r| ensures Keys(r)[i] != k {
        assert r[i] in multiset(t);
        var j :| 0 <= j < |t| && t[j] == r[i];
        assert Keys(t)[j] == r[i].key;
      }
    case Some(a) =>
      assert Entry(k, a) in multiset(r);
      FindDistinct(r, k, a);
  }

  /** Reordering a list with distinct keys keeps the keys distinct. */
  lemma PermutationDistinctKeys<K, A>(t: seq<Entry<K, A>>, r: seq<Entry<K, A>>)
    requires DistinctKeys(t) && multiset(r) == multiset(t)
    ensures DistinctKeys(r)
  {
    forall i, j | 0 <= i < j < |r| ensures r[i].key != r[j].key {
      assert r[i] in multiset(t) && r[j] in multiset(t);
      DistinctKeysCount(t, r[i]);
      if r[i] == r[j] {
        TwiceCounted(r, i, j);
      }
      assert r[i] != r[j];
      KeysOfDistinctEntries(t, r[i], r[j]);
    }
  }

  /** An element at two positions is counted at least twice. */
  lemma TwiceCounted<T>(s: seq<T>, i: nat, j: nat)
    requires i < j < |s| && s[i] == s[j]
    ensures multiset(s)[s[i]] >= 2
  {
    assert s == s[..j] + [s[j]] + s[j + 1..];
    assert s[i] in s[..j];
  }

  /** In a list with distinct keys, two different entries carry different keys. */
  lemma KeysOfDistinctEntries<K, A>(t: seq<Entry<K, A>>, x: Entry<K, A>, y: Entry<K, A>)
    requires DistinctKeys(t) && x in t && y in t && x != y
    ensures x.key != y.key
  {
  }

  /** In a list with distinct keys, each entry occurs once. */
  lemma {:induction false} DistinctKeysCount<K, A>(t: seq<Entry<K, A>>, x: Entry<K, A>)
    requires DistinctKeys(t)
    ensures multiset(t)[x] <= 1
  {
    if t != [] {
      assert t == [t[0]] + t[1..];
      DistinctKeysCount(t[1..], x);
      if t[0] == x {
        assert forall i :: 1 <= i < |t| ==> t[i] != x;
        assert x !in t[1..];
      }
    }
  }

  /** In a list with distinct keys, `get` returns the value of the entry carrying the key. */
  lemma {:induction false} FindDistinct<K, A>(t: seq<Entry<K, A>>, k: K, a: A)
    requires DistinctKeys(t) && Entry(k, a) in t
    ensures Find(t, k) == Some(a)
  {
    if t[0] != Entry(k, a) {
      var i :| 0 <= i < |t| && t[i] == Entry(k, a);
      assert t[0].key != k;
      assert Entry(k, a) in t[1..] by {
        assert t[1..][i - 1] == t[i];
      }
      FindDistinct(t[1..], k, a);
    }
  }
}
