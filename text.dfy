/** The string operations of JavaScript that the dashboard relies on, on `seq<char>`:
    `split` and `join` on a separator, `replace` with a one-character pattern (first
    occurrence only), `toLowerCase`, decimal rendering of integers with zero padding,
    and the default ordering used by `Array.prototype.sort()` without a comparator. */
module Text {
  import opened Sequences

  // ---------------------------------------------------------------- digits

  predicate IsDigit(c: char)
  {
    '0' <= c <= '9'
  }

  predicate AllDigits(s: string)
  {
    forall i :: 0 <= i < |s| ==> IsDigit(s[i])
  }

  function DigitChar(d: nat): (c: char)
    requires d < 10
    ensures IsDigit(c)
  {
    ('0' as int + d) as char
  }

  /** Decimal digits of `n`, most significant first, without leading zeros. */
  function NatToString(n: nat): (s: string)
    ensures |s| >= 1 && AllDigits(s)
    decreases n
  {
    if n < 10 then [DigitChar(n)] else NatToString(n / 10) + [DigitChar(n % 10)]
  }

  /** `String(i)` for an integer value. */
  function IntToString(i: int): (s: string)
    ensures |s| >= 1
    ensures i >= 0 ==> AllDigits(s)
    ensures i < 0 ==> |s| >= 2 && s[0] == '-' && AllDigits(s[1..])
  {
    if i < 0 then "-" + NatToString(-i) else NatToString(i)
  }

  /** Left-pads `s` with '0' up to `width` characters. */
  function PadLeft(s: string, width: nat): (r: string)
    ensures |r| == if |s| >= width then |s| else width
    ensures AllDigits(s) ==> AllDigits(r)
    decreases width - |s|
  {
    if |s| >= width then s else PadLeft("0" + s, width)
  }

  /** A string of digits holds no character that is not a digit. */
  lemma DigitsAvoid(s: string, c: char)
    requires AllDigits(s) && !IsDigit(c)
    ensures c !in s
  {
  }

  /** `n` rendered with at least `width` digits, as date-fns renders `dd`, `MM` and `yyyy`. */
  function Pad(n: nat, width: nat): (r: string)
    ensures AllDigits(r) && |r| >= width && |r| >= 1
  {
    PadLeft(NatToString(n), width)
  }

  /** Ten to the power `f`. */
  function Pow10(f: nat): (p: nat)
    ensures p >= 1
  {
    if f == 0 then 1 else 10 * Pow10(f - 1)
  }

  /** `x.toFixed(digits)` for a magnitude below 10^21: the integer n closest to |x|·10^digits
      (the larger one on a tie), written with `digits` decimals after a '.', and a '-' in front
      exactly when x is negative (so a small negative number gives "-0.0"). */
  function ToFixed(x: real, digits: nat): (s: string)
    ensures |s| >= 1
    ensures s[0] == '-' <==> x < 0.0
    ensures x >= 0.0 ==> IsDigit(s[0])
  {
    var magnitude := if x < 0.0 then -x else x;
    var n := (magnitude * Pow10(digits) as real + 0.5).Floor;
    var d := Pad(n as nat, digits + 1);
    var body := if digits == 0 then d else d[..|d| - digits] + "." + d[|d| - digits..];
    assert IsDigit(body[0]);
    (if x < 0.0 then "-" else "") + body
  }

  /** An integer's text holds only digits and a leading minus sign. */
  lemma IntToStringAvoids(i: int, c: char)
    requires !IsDigit(c) && c != '-'
    ensures c !in IntToString(i)
  {
    var s := IntToString(i);
    if i < 0 {
      DigitsAvoid(s[1..], c);
      assert s == [s[0]] + s[1..];
    } else {
      DigitsAvoid(s, c);
    }
  }

  /** A fixed-point text holds only digits, a leading minus sign and the decimal point. */
  lemma ToFixedAvoids(x: real, digits: nat, c: char)
    requires !IsDigit(c) && c != '-' && c != '.'
    ensures c !in ToFixed(x, digits)
  {
    var magnitude := if x < 0.0 then -x else x;
    var n := (magnitude * Pow10(digits) as real + 0.5).Floor;
    var d := Pad(n as nat, digits + 1);
    DigitsAvoid(d, c);
    if digits > 0 {
      var k := |d| - digits;
      assert c !in d[..k] && c !in d[k..] by {
        assert d == d[..k] + d[k..];
      }
    }
  }

  // ---------------------------------------------------------------- split and join

  /** `s.split(sep)` for a one-character separator. */
  function Split(s: string, sep: char): (pieces: seq<string>)
    ensures |pieces| >= 1
    ensures forall i :: 0 <= i < |pieces| ==> sep !in pieces[i]
    decreases |s|
  {
    if s == [] then [""]
    else
      var rest := Split(s[1..], sep);
      if s[0] == sep then [""] + rest else [[s[0]] + rest[0]] + rest[1..]
  }

  /** `parts.join(sep)`. */
  function Join(parts: seq<string>, sep: string): string
    decreases |parts|
  {
    if parts == [] then ""
    else if |parts| == 1 then parts[0]
    else parts[0] + sep + Join(parts[1..], sep)
  }

  /** Splitting and joining again on the same separator gives back the string. */
  lemma {:induction false} JoinSplit(s: string, sep: char)
    ensures Join(Split(s, sep), [sep]) == s
    decreases |s|
  {
    if s != [] {
      JoinSplit(s[1..], sep);
      var rest := Split(s[1..], sep);
      if s[0] == sep {
        assert Split(s, sep) == [""] + rest;
      } else {
        var r := Split(s, sep);
        assert r == [[s[0]] + rest[0]] + rest[1..];
        if |rest| == 1 {
          assert Join(r, [sep]) == [s[0]] + rest[0];
        } else {
          assert Join(r, [sep]) == [s[0]] + rest[0] + [sep] + Join(rest[1..], [sep]);
        }
      }
    }
  }

  /** A string without the separator is one piece. */
  lemma {:induction false} SplitWithoutSeparator(a: string, sep: char)
    requires sep !in a
    ensures Split(a, sep) == [a]
    decreases |a|
  {
    if a != [] {
      SplitWithoutSeparator(a[1..], sep);
      assert [a[0]] + a[1..] == a;
    }
  }

  /** Splitting `a + sep + b` gives the pieces of `a` followed by the pieces of `b`. */
  lemma {:induction false} SplitConcat(a: string, sep: char, b: string)
    ensures Split(a + [sep] + b, sep) == Split(a, sep) + Split(b, sep)
    decreases |a|
  {
    if a == [] {
      assert a + [sep] + b == [sep] + b;
      assert ([sep] + b)[1..] == b;
    } else {
      assert (a + [sep] + b)[1..] == a[1..] + [sep] + b;
      SplitConcat(a[1..], sep, b);
    }
  }

  /** A string holding the separator splits into at least two pieces. */
  lemma {:induction false} SplitWithSeparator(a: string, sep: char)
    requires sep in a
    ensures |Split(a, sep)| >= 2
    decreases |a|
  {
    if a[0] != sep {
      assert sep in a[1..];
      SplitWithSeparator(a[1..], sep);
    }
  }

  /** Joining pieces without the separator and splitting again gives back the pieces. */
  lemma {:induction false} SplitJoin(parts: seq<string>, sep: char)
    requires |parts| >= 1
    requires forall i :: 0 <= i < |parts| ==> sep !in parts[i]
    ensures Split(Join(parts, [sep]), sep) == parts
    decreases |parts|
  {
    SplitWithoutSeparator(parts[0], sep);
    if |parts| > 1 {
      SplitJoin(parts[1..], sep);
      SplitConcat(parts[0], sep, Join(parts[1..], [sep]));
    }
  }

  /** Joining does not quote: the joined text splits into at least as many pieces as were
      joined, and into more when some piece holds the separator. */
  lemma {:induction false} SplitJoinUnquoted(parts: seq<string>, sep: char)
    ensures |Split(Join(parts, [sep]), sep)| >= |parts|
    ensures (exists i :: 0 <= i < |parts| && sep in parts[i]) ==> |Split(Join(parts, [sep]), sep)| > |parts|
    decreases |parts|
  {
    if |parts| == 1 {
      if sep in parts[0] {
        SplitWithSeparator(parts[0], sep);
      }
    } else if |parts| > 1 {
      SplitJoinUnquoted(parts[1..], sep);
      SplitConcat(parts[0], sep, Join(parts[1..], [sep]));
      if sep in parts[0] {
        SplitWithSeparator(parts[0], sep);
      }
      if exists i :: 0 <= i < |parts| && sep in parts[i] {
        var i :| 0 <= i < |parts| && sep in parts[i];
        if i > 0 {
          assert parts[1..][i - 1] == parts[i];
        }
      }
    }
  }

  /** A character in none of the pieces and different from the separator is not in the joined text. */
  lemma {:induction false} JoinAvoids(parts: seq<string>, sep: string, c: char)
    requires c !in sep
    requires forall i :: 0 <= i < |parts| ==> c !in parts[i]
    ensures c !in Join(parts, sep)
    decreases |parts|
  {
    if |parts| > 1 {
      JoinAvoids(parts[1..], sep, c);
    }
  }

  /** Destructuring `const [x0, x1, x2] = pieces`: a missing piece is `undefined`,
      which string concatenation renders as "undefined". */
  function PieceOrUndefined(pieces: seq<string>, i: nat): string
  {
    if i < |pieces| then pieces[i] else "undefined"
  }

  // ---------------------------------------------------------------- replace

  /** `s.replace(from, to)` with one-character string arguments: only the first occurrence is replaced. */
  function ReplaceFirst(s: string, from: char, to: char): (r: string)
    ensures |r| == |s|
    ensures from !in s ==> r == s
    decreases |s|
  {
    if s == [] then []
    else if s[0] == from then [to] + s[1..]
    else [s[0]] + ReplaceFirst(s[1..], from, to)
  }

  /** Replacing the first `from` by `to`, and then the first `to` by `from`, restores a string that had no `to`. */
  lemma {:induction false} ReplaceFirstRoundTrip(s: string, from: char, to: char)
    requires to !in s
    ensures ReplaceFirst(ReplaceFirst(s, from, to), to, from) == s
    decreases |s|
  {
    if s != [] && s[0] != from {
      ReplaceFirstRoundTrip(s[1..], from, to);
    }
  }

  /** Replacing the first occurrence changes nothing before it, puts `to` in its place and keeps the rest. */
  lemma {:induction false} ReplaceFirstAt(s: string, from: char, to: char, i: nat)
    requires i < |s| && s[i] == from && from !in s[..i]
    ensures ReplaceFirst(s, from, to) == s[..i] + [to] + s[i + 1..]
    decreases |s|
  {
    if i > 0 {
      var t, before := s[1..], s[..i];
      var rest := t[..i - 1];
      assert before[0] == s[0] && s[0] != from;
      assert ReplaceFirst(s, from, to) == [s[0]] + ReplaceFirst(t, from, to);
      forall k | 0 <= k < i - 1 ensures rest[k] != from {
        assert rest[k] == before[k + 1];
      }
      ReplaceFirstAt(t, from, to, i - 1);
      assert before == [s[0]] + rest && s[i + 1..] == t[i..];
      assert ReplaceFirst(s, from, to) == [s[0]] + (rest + [to] + t[i..]);
    }
  }

  // ---------------------------------------------------------------- lower case

  /** Upper-case letters of ASCII and Latin-1 (A-Z, À-Þ without ×). */
  predicate IsUpper(c: char)
  {
    ('A' <= c <= 'Z') || ('À' <= c <= 'Þ' && c != '×')
  }

  function LowerChar(c: char): (l: char)
    ensures !IsUpper(l)
    ensures !IsUpper(c) ==> l == c
  {
    if IsUpper(c) then (c as int + 32) as char else c
  }

  /** `s.toLowerCase()` on ASCII and Latin-1 letters. */
  function ToLower(s: string): (r: string)
    ensures |r| == |s|
    ensures forall i :: 0 <= i < |s| ==> r[i] == LowerChar(s[i])
  {
    seq(|s|, i requires 0 <= i < |s| => LowerChar(s[i]))
  }

  predicate HasUpper(s: string)
  {
    exists i :: 0 <= i < |s| && IsUpper(s[i])
  }

  /** A lower-cased string has no upper-case letter, and lower-casing it again changes nothing. */
  lemma ToLowerIdempotent(s: string)
    ensures !HasUpper(ToLower(s))
    ensures ToLower(ToLower(s)) == ToLower(s)
  {
  }

  // ---------------------------------------------------------------- ordering and sorting

  /** The order of `Array.prototype.sort()` without a comparator: lexicographic by character code. */
  predicate StrLe(a: string, b: string)
    decreases |a|
  {
    if a == [] then true
    else if b == [] then false
    else if a[0] != b[0] then a[0] < b[0]
    else StrLe(a[1..], b[1..])
  }

  lemma StrLeTotal(a: string, b: string)
    ensures StrLe(a, b) || StrLe(b, a)
    decreases |a|
  {
    if a != [] && b != [] && a[0] == b[0] {
      StrLeTotal(a[1..], b[1..]);
    }
  }

  lemma StrLeAntisymmetric(a: string, b: string)
    requires StrLe(a, b) && StrLe(b, a)
    ensures a == b
    decreases |a|
  {
    if a != [] && b != [] {
      StrLeAntisymmetric(a[1..], b[1..]);
      assert a == [a[0]] + a[1..] && b == [b[0]] + b[1..];
    }
  }

  lemma StrLeTransitive(a: string, b: string, c: string)
    requires StrLe(a, b) && StrLe(b, c)
    ensures StrLe(a, c)
    decreases |a|
  {
    if a != [] && b != [] && c != [] && a[0] == b[0] && b[0] == c[0] {
      StrLeTransitive(a[1..], b[1..], c[1..]);
    }
  }

  predicate Sorted(s: seq<string>)
  {
    forall i, j :: 0 <= i < j < |s| ==> StrLe(s[i], s[j])
  }

  function Insert(x: string, s: seq<string>): (r: seq<string>)
    ensures multiset(r) == multiset(s) + multiset{x}
    decreases |s|
  {
    if s == [] then [x]
    else if StrLe(x, s[0]) then [x] + s
    else assert s == [s[0]] + s[1..]; [s[0]] + Insert(x, s[1..])
  }

  lemma {:induction false} InsertSorted(x: string, s: seq<string>)
    requires Sorted(s)
    ensures Sorted(Insert(x, s))
    decreases |s|
  {
    if s != [] {
      if StrLe(x, s[0]) {
        forall j | 2 <= j < |s| + 1 ensures StrLe(x, ([x] + s)[j]) {
          StrLeTransitive(x, s[0], s[j - 1]);
        }
      } else {
        StrLeTotal(x, s[0]);
        InsertSorted(x, s[1..]);
        var r := Insert(x, s[1..]);
        forall j | 0 <= j < |r| ensures StrLe(s[0], r[j]) {
          assert r[j] in multiset(s[1..]) + multiset{x};
          if r[j] != x {
            assert r[j] in multiset(s[1..]);
            var k :| 0 <= k < |s[1..]| && s[1..][k] == r[j];
          }
        }
      }
    }
  }

  /** `[...strings].sort()`: insertion sort in the default order. */
  function SortStrings(s: seq<string>): (r: seq<string>)
    ensures multiset(r) == multiset(s)
    ensures |r| == |s|
    decreases |s|
  {
    if s == [] then [] else assert s == [s[0]] + s[1..]; Insert(s[0], SortStrings(s[1..]))
  }

  lemma {:induction false} SortStringsSorted(s: seq<string>)
    ensures Sorted(SortStrings(s))
    decreases |s|
  {
    if s != [] {
      SortStringsSorted(s[1..]);
      InsertSorted(s[0], SortStrings(s[1..]));
    }
  }

  /** A sequence whose elements occur once each, sorted, is strictly ascending. */
  lemma SortedDistinctIsStrict(s: seq<string>)
    requires Sorted(s) && Distinct(s)
    ensures forall i, j :: 0 <= i < j < |s| ==> StrLe(s[i], s[j]) && !StrLe(s[j], s[i])
  {
    forall i, j | 0 <= i < j < |s| ensures !StrLe(s[j], s[i]) {
      if StrLe(s[j], s[i]) {
        StrLeAntisymmetric(s[i], s[j]);
      }
    }
  }

  /** `Array.from(new Set(values)).sort()`: each value once, in ascending order. */
  function SortedSet(values: seq<string>): seq<string>
  {
    SortStrings(SetOf(values))
  }

  /** The sorted set is ascending, holds each value once, and holds exactly the given values. */
  lemma SortedSetMembers(values: seq<string>)
    ensures Sorted(SortedSet(values))
    ensures Distinct(SortedSet(values))
    ensures forall x :: x in SortedSet(values) <==> x in values
  {
    SetOfMembers(values);
    SortStringsSorted(SetOf(values));
    PermutationDistinct(SetOf(values), SortedSet(values));
    forall x ensures x in SortedSet(values) <==> x in SetOf(values) {
      assert x in SortedSet(values) <==> x in multiset(SortedSet(values));
      assert x in SetOf(values) <==> x in multiset(SetOf(values));
    }
  }

  // ---------------------------------------------------------------- distinct non-empty values

  predicate NonEmpty(s: string)
  {
    s != ""
  }

  /** What a `Set` holds after `data.forEach(x => { if (f(x)) set.add(f(x)) })`: the non-empty
      values of `f`, each once, in order of first occurrence. */
  function PresentValues<T>(data: seq<T>, f: T -> string): seq<string>
  {
    SetOf(Filter(Map(data, f), NonEmpty))
  }

  /** One more element adds its value to the set when the value is not empty. */
  lemma PresentValuesStep<T>(data: seq<T>, f: T -> string, i: nat)
    requires i < |data|
    ensures PresentValues(data[..i + 1], f) ==
      if f(data[i]) != "" then AddDistinct(PresentValues(data[..i], f), f(data[i])) else PresentValues(data[..i], f)
  {
    assert data[..i + 1][..i] == data[..i];
    var before := Map(data[..i], f);
    var after := Map(data[..i + 1], f);
    assert after == before + [f(data[i])];
    assert after[..|after| - 1] == before;
    var kept := Filter(after, NonEmpty);
    assert PresentValues(data[..i + 1], f) == SetOf(kept);
    assert PresentValues(data[..i], f) == SetOf(Filter(before, NonEmpty));
    assert kept == Filter(before, NonEmpty) + (if f(data[i]) != "" then [f(data[i])] else []);
    if f(data[i]) != "" {
      assert kept[..|kept| - 1] == Filter(before, NonEmpty) && kept[|kept| - 1] == f(data[i]);
      assert SetOf(kept) == AddDistinct(SetOf(Filter(before, NonEmpty)), f(data[i]));
    } else {
      assert kept == Filter(before, NonEmpty);
    }
  }

  /** The sorted list of present values is ascending, holds each value once, and holds exactly
      the non-empty values `f` takes on `data`. */
  lemma PresentValuesMembers<T>(data: seq<T>, f: T -> string)
    ensures SortStrings(PresentValues(data, f)) == SortedSet(Filter(Map(data, f), NonEmpty))
    ensures Sorted(SortStrings(PresentValues(data, f))) && Distinct(SortStrings(PresentValues(data, f)))
    ensures forall x :: x in SortStrings(PresentValues(data, f)) <==> x != "" && exists y :: y in data && f(y) == x
  {
    var values := Map(data, f);
    SortedSetMembers(Filter(values, NonEmpty));
    forall x | x != "" && exists y :: y in data && f(y) == x
      ensures x in Filter(values, NonEmpty)
    {
      var y :| y in data && f(y) == x;
      var i :| 0 <= i < |data| && data[i] == y;
      assert values[i] == x;
      FilterKeeps(values, NonEmpty, x);
    }
    forall x | x in Filter(values, NonEmpty)
      ensures x != "" && exists y :: y in data && f(y) == x
    {
      var i :| 0 <= i < |values| && values[i] == x;
      assert data[i] in data && f(data[i]) == x;
    }
  }
}
