/** Shared vocabulary of the model: optional values, request outcomes, the
    JavaScript `||` defaulting rule, text helpers and the list pipelines
    (filter, stable sort, sum, slice) that the backend and the client use. */
module Common {

  datatype Option<+T> = None | Some(value: T)

  /** The outcome of a request handler: the success payload, or a 400 / 404
      answer carrying the handler's message. */
  datatype Response<+T> = Ok(value: T) | BadRequest(message: string) | NotFound(message: string)

  /** The per-category counter map that sessions and reports start from. */
  const EmptyTally: map<string, int> := map["pens" := 0, "cups" := 0, "books" := 0]

  // ---------------------------------------------------------------------------
  // JavaScript truthiness: `v || d` keeps `v` only when it is present and not
  // a falsy value (0 for numbers, "" for strings). Objects are always truthy.

  function OrInt(v: Option<int>, d: int): (r: int)
    ensures v.Some? && v.value != 0 ==> r == v.value
    ensures v.None? || v.value == 0 ==> r == d
  {
    if v.Some? && v.value != 0 then v.value else d
  }

  function OrStr(v: Option<string>, d: string): (r: string)
    ensures v.Some? && v.value != "" ==> r == v.value
    ensures v.None? || v.value == "" ==> r == d
  {
    if v.Some? && v.value != "" then v.value else d
  }

  function OrObj<T>(v: Option<T>, d: T): T {
    if v.Some? then v.value else d
  }

  predicate TruthyStr(v: Option<string>) {
    v.Some? && v.value != ""
  }

  // ---------------------------------------------------------------------------
  // Text. `toLowerCase` is abstracted to ASCII case folding and `\s` to the
  // common whitespace characters.

  function LowerChar(c: char): char {
    if 'A' <= c <= 'Z' then (c as int + 32) as char else c
  }

  function Lower(s: string): (r: string)
    ensures |r| == |s|
    ensures forall i :: 0 <= i < |s| ==> r[i] == LowerChar(s[i])
  {
    if s == [] then [] else [LowerChar(s[0])] + Lower(s[1..])
  }

  predicate IsSpace(c: char) {
    c == ' ' || c == '\t' || c == '\n' || c == '\r' || c == '\U{b}' || c == '\U{c}' || c == '\U{a0}' || c == '\U{feff}'
  }

  /** `s.trim()` is empty. */
  predicate IsBlank(s: string) {
    forall i :: 0 <= i < |s| ==> IsSpace(s[i])
  }

  predicate IsPrefix(t: string, s: string) {
    |t| <= |s| && s[..|t|] == t
  }

  /** Index of the first `c` in `s`, or `|s|` when there is none. */
  function IndexOf(s: string, c: char): (i: nat)
    ensures i <= |s|
    ensures i < |s| ==> s[i] == c
    ensures forall k :: 0 <= k < i ==> s[k] != c
  {
    if s == [] then 0 else if s[0] == c then 0 else 1 + IndexOf(s[1..], c)
  }

  /** `s.includes(t)`, computed by trying every start position in turn. */
  predicate Contains(s: string, t: string)
    decreases |s|
  {
    IsPrefix(t, s) || (|s| > 0 && Contains(s[1..], t))
  }

  /** `t` occurs in `s` starting at index `i`. */
  predicate OccursAt(s: string, t: string, i: int) {
    0 <= i && i + |t| <= |s| && s[i..i + |t|] == t
  }

  lemma {:induction false} ContainsWitness(s: string, t: string)
    requires Contains(s, t)
    ensures exists i :: OccursAt(s, t, i)
    decreases |s|
  {
    if IsPrefix(t, s) {
      assert OccursAt(s, t, 0);
    } else {
      ContainsWitness(s[1..], t);
      var j :| OccursAt(s[1..], t, j);
      assert s[1..][j..j + |t|] == s[j + 1..j + 1 + |t|];
      assert OccursAt(s, t, j + 1);
    }
  }

  lemma {:induction false} OccursContains(s: string, t: string, i: int)
    requires OccursAt(s, t, i)
    ensures Contains(s, t)
    decreases |s|
  {
    if i > 0 {
      assert s[1..][i - 1..i - 1 + |t|] == s[i..i + |t|];
      OccursContains(s[1..], t, i - 1);
    } else {
      assert IsPrefix(t, s);
    }
  }

  /** `Contains` agrees with the definition of a substring occurrence. */
  lemma ContainsIff(s: string, t: string)
    ensures Contains(s, t) <==> exists i :: OccursAt(s, t, i)
  {
    if Contains(s, t) {
      ContainsWitness(s, t);
    }
    if exists i :: OccursAt(s, t, i) {
      var i :| OccursAt(s, t, i);
      OccursContains(s, t, i);
    }
  }

  /** A case-insensitive name match: `name.toLowerCase().includes(query.toLowerCase())`. */
  predicate NameMatches(name: string, query: string) {
    Contains(Lower(name), Lower(query))
  }

  // ---------------------------------------------------------------------------
  // List pipelines.

  /** `Array.prototype.filter`: the elements satisfying `p`, in their order. */
  function Filter<T>(s: seq<T>, p: T -> bool): (r: seq<T>)
    ensures |r| <= |s|
    ensures forall x :: x in r ==> x in s && p(x)
  {
    if s == [] then [] else (if p(s[0]) then [s[0]] else []) + Filter(s[1..], p)
  }

  /** Everything that passes `p` survives the filter. */
  lemma {:induction false} FilterComplete<T>(s: seq<T>, p: T -> bool, x: T)
    requires x in s && p(x)
    ensures x in Filter(s, p)
  {
    if s[0] != x {
      FilterComplete(s[1..], p, x);
    }
  }

  /** Filtering distributes over concatenation, so it keeps relative order. */
  lemma {:induction false} FilterAppend<T>(a: seq<T>, b: seq<T>, p: T -> bool)
    ensures Filter(a + b, p) == Filter(a, p) + Filter(b, p)
  {
    if a == [] {
      assert a + b == b;
    } else {
      assert (a + b)[1..] == a[1..] + b;
      FilterAppend(a[1..], b, p);
    }
  }

  /** A filter that every element passes returns its input. */
  lemma {:induction false} FilterAll<T>(s: seq<T>, p: T -> bool)
    requires forall i :: 0 <= i < |s| ==> p(s[i])
    ensures Filter(s, p) == s
  {
    if s != [] {
      FilterAll(s[1..], p);
    }
  }

  /** Two filters with disjoint conditions together keep at most the input. */
  lemma {:induction false} FilterDisjoint<T>(s: seq<T>, p: T -> bool, q: T -> bool)
    requires forall x :: !(p(x) && q(x))
    ensures |Filter(s, p)| + |Filter(s, q)| <= |s|
  {
    if s != [] {
      FilterDisjoint(s[1..], p, q);
    }
  }

  /** The JavaScript sum `s.reduce((acc, x) => acc + f(x), 0)`. */
  function SumBy<T>(s: seq<T>, f: T -> int): int {
    if s == [] then 0 else f(s[0]) + SumBy(s[1..], f)
  }

  lemma {:induction false} SumByAppend<T>(a: seq<T>, b: seq<T>, f: T -> int)
    ensures SumBy(a + b, f) == SumBy(a, f) + SumBy(b, f)
  {
    if a == [] {
      assert a + b == b;
    } else {
      assert (a + b)[1..] == a[1..] + b;
      SumByAppend(a[1..], b, f);
    }
  }

  lemma {:induction false} SumByNonNegative<T>(s: seq<T>, f: T -> int)
    requires forall i :: 0 <= i < |s| ==> f(s[i]) >= 0
    ensures SumBy(s, f) >= 0
  {
    if s != [] {
      SumByNonNegative(s[1..], f);
    }
  }

  /** A sum of terms between `lo` and `hi` lies between `|s|*lo` and `|s|*hi`. */
  lemma {:induction false} SumByBounds<T>(s: seq<T>, f: T -> int, lo: int, hi: int)
    requires forall i :: 0 <= i < |s| ==> lo <= f(s[i]) <= hi
    ensures |s| * lo <= SumBy(s, f) <= |s| * hi
  {
    if s != [] {
      SumByBounds(s[1..], f, lo, hi);
      assert |s| * lo == lo + |s[1..]| * lo && |s| * hi == hi + |s[1..]| * hi;
    }
  }

  /** Place `x` before the first element whose key is not larger; `x` goes in
      front of equal keys, which keeps the sort stable when `x` came first. */
  function Insert<T>(x: T, s: seq<T>, key: T -> int): (r: seq<T>)
    ensures |r| == |s| + 1
  {
    if s == [] || key(x) >= key(s[0]) then [x] + s else [s[0]] + Insert(x, s[1..], key)
  }

  /** `s.sort((a, b) => key(b) - key(a))`: a stable sort, largest key first. */
  function SortDesc<T>(s: seq<T>, key: T -> int): (r: seq<T>)
    ensures |r| == |s|
  {
    if s == [] then [] else Insert(s[0], SortDesc(s[1..], key), key)
  }

  ghost predicate SortedDesc<T>(s: seq<T>, key: T -> int) {
    forall i, j :: 0 <= i < j < |s| ==> key(s[i]) >= key(s[j])
  }

  /** A head no smaller than every key of a sorted tail keeps the list sorted. */
  lemma ConsSorted<T>(h: T, s: seq<T>, key: T -> int)
    requires SortedDesc(s, key)
    requires forall i :: 0 <= i < |s| ==> key(s[i]) <= key(h)
    ensures SortedDesc([h] + s, key)
  {
    var r := [h] + s;
    forall i, j | 0 <= i < j < |r|
      ensures key(r[i]) >= key(r[j])
    {
      assert r[j] == s[j - 1];
      if i > 0 {
        assert r[i] == s[i - 1];
      }
    }
  }

  /** Inserting below a bound keeps every key below it. */
  lemma {:induction false} InsertBounded<T>(x: T, s: seq<T>, key: T -> int, b: int)
    requires key(x) <= b
    requires forall i :: 0 <= i < |s| ==> key(s[i]) <= b
    ensures forall i :: 0 <= i < |Insert(x, s, key)| ==> key(Insert(x, s, key)[i]) <= b
  {
    if !(s == [] || key(x) >= key(s[0])) {
      InsertBounded(x, s[1..], key, b);
      var rest := Insert(x, s[1..], key);
      assert Insert(x, s, key) == [s[0]] + rest;
    }
  }

  lemma {:induction false} InsertPermutes<T>(x: T, s: seq<T>, key: T -> int)
    ensures multiset(Insert(x, s, key)) == multiset(s) + multiset{x}
  {
    if !(s == [] || key(x) >= key(s[0])) {
      InsertPermutes(x, s[1..], key);
      assert s == [s[0]] + s[1..];
    }
  }

  lemma {:induction false} InsertSorted<T>(x: T, s: seq<T>, key: T -> int)
    requires SortedDesc(s, key)
    ensures SortedDesc(Insert(x, s, key), key)
    ensures multiset(Insert(x, s, key)) == multiset(s) + multiset{x}
  {
    InsertPermutes(x, s, key);
    if s == [] || key(x) >= key(s[0]) {
      ConsSorted(x, s, key);
    } else {
      InsertSorted(x, s[1..], key);
      InsertBounded(x, s[1..], key, key(s[0]));
      ConsSorted(s[0], Insert(x, s[1..], key), key);
    }
  }

  /** The sort returns a permutation of its input, ordered by key, largest first. */
  lemma {:induction false} SortDescCorrect<T>(s: seq<T>, key: T -> int)
    ensures SortedDesc(SortDesc(s, key), key)
    ensures multiset(SortDesc(s, key)) == multiset(s)
  {
    if s != [] {
      SortDescCorrect(s[1..], key);
      InsertSorted(s[0], SortDesc(s[1..], key), key);
      assert s == [s[0]] + s[1..];
    }
  }

  /** No element occurs twice. */
  ghost predicate Distinct<T>(s: seq<T>) {
    forall i, j :: 0 <= i < j < |s| ==> s[i] != s[j]
  }

  lemma {:induction false} DistinctCount<T>(s: seq<T>, x: T)
    requires Distinct(s)
    ensures multiset(s)[x] <= 1
  {
    if s != [] {
      assert s == [s[0]] + s[1..];
      assert Distinct(s[1..]) by {
        forall i, j | 0 <= i < j < |s[1..]|
          ensures s[1..][i] != s[1..][j]
        {
          assert s[1..][i] == s[i + 1] && s[1..][j] == s[j + 1];
        }
      }
      DistinctCount(s[1..], x);
      if s[0] == x {
        forall k | 0 <= k < |s[1..]|
          ensures s[1..][k] != x
        {
          assert s[1..][k] == s[k + 1];
        }
        assert x !in s[1..];
      }
    }
  }

  /** A reordering of a list without repeats has no repeats either. */
  lemma PermutationDistinct<T>(a: seq<T>, b: seq<T>)
    requires multiset(a) == multiset(b) && Distinct(a)
    ensures Distinct(b)
  {
    forall i, j | 0 <= i < j < |b|
      ensures b[i] != b[j]
    {
      var x := b[i];
      assert b == b[..j] + b[j..];
      assert b[..j][i] == x && b[j..][0] == b[j];
      assert multiset(b)[x] == multiset(b[..j])[x] + multiset(b[j..])[x];
      DistinctCount(a, x);
    }
  }

  /** A prefix of a sorted list without repeats is sorted, has no repeats,
      and every element it leaves out has a key no larger than any it keeps. */
  lemma PrefixOfSorted<T>(sorted: seq<T>, r: seq<T>, key: T -> int)
    requires SortedDesc(sorted, key) && Distinct(sorted)
    requires |r| <= |sorted| && r == sorted[..|r|]
    ensures SortedDesc(r, key) && Distinct(r)
    ensures forall x :: x in r ==> x in sorted
    ensures forall x, y :: x in r && y in sorted && y !in r ==> key(y) <= key(x)
  {
    forall j | 0 <= j < |r|
      ensures sorted[j] in r
    {
      assert r[j] == sorted[j];
    }
    forall x, y | x in r && y in sorted && y !in r
      ensures key(y) <= key(x)
    {
      var i :| 0 <= i < |r| && r[i] == x;
      var j :| 0 <= j < |sorted| && sorted[j] == y;
      assert sorted[i] == x;
    }
  }

  /** A comparator that always answers 0 leaves the order unchanged. */
  lemma {:induction false} SortDescConstantKey<T>(s: seq<T>, key: T -> int)
    requires forall x :: key(x) == 0
    ensures SortDesc(s, key) == s
  {
    if s != [] {
      SortDescConstantKey(s[1..], key);
    }
  }

  lemma {:induction false} SumByInsert<T>(x: T, s: seq<T>, key: T -> int, f: T -> int)
    ensures SumBy(Insert(x, s, key), f) == f(x) + SumBy(s, f)
  {
    if !(s == [] || key(x) >= key(s[0])) {
      SumByInsert(x, s[1..], key, f);
    }
  }

  /** Sorting does not change a sum over the list. */
  lemma {:induction false} SumBySort<T>(s: seq<T>, key: T -> int, f: T -> int)
    ensures SumBy(SortDesc(s, key), f) == SumBy(s, f)
  {
    if s != [] {
      SumBySort(s[1..], key, f);
      SumByInsert(s[0], SortDesc(s[1..], key), key, f);
    }
  }

  /** The end index that `s.slice(0, end)` uses on a list of length `n`: a
      negative end counts from the back. */
  function SliceEnd(n: nat, end: int): (k: nat)
    ensures k <= n
    ensures end >= 0 ==> k == if end < n then end else n
    ensures end < 0 ==> k == if n + end > 0 then n + end else 0
  {
    if end < 0 then (if n + end > 0 then n + end else 0) else if end < n then end else n
  }

  /** `s.slice(0, end)`. */
  function Take<T>(s: seq<T>, end: int): (r: seq<T>)
    ensures |r| == SliceEnd(|s|, end)
    ensures r == s[..|r|]
  {
    s[..SliceEnd(|s|, end)]
  }

  /** A query parameter passed through `parseInt(x) || d`: None stands for a
      missing or unparsable value (NaN), which like 0 falls back to `d`. */
  function ParseLimit(parsed: Option<int>, d: int): (r: int)
    ensures parsed.Some? && parsed.value != 0 ==> r == parsed.value
    ensures parsed.None? || parsed.value == 0 ==> r == d
  {
    OrInt(parsed, d)
  }

  /** `Math.round(a / b)` for a positive divisor: halves round up. */
  function RoundDiv(a: int, b: int): (r: int)
    requires b > 0
    ensures 2 * b * r <= 2 * a + b < 2 * b * (r + 1)
  {
    DivFloorBounds(2 * a + b, 2 * b);
    (2 * a + b) / (2 * b)
  }

  lemma DivFloorBounds(n: int, d: int)
    requires d > 0
    ensures d * (n / d) <= n < d * (n / d + 1)
  {
  }

  /** A rounded percentage of a part of a whole stays between 0 and 100. */
  lemma RoundedPercentBounds(part: int, whole: int)
    requires 0 <= part <= whole && whole > 0
    ensures 0 <= RoundDiv(100 * part, whole) <= 100
  {
    var r := RoundDiv(100 * part, whole);
    assert 2 * whole * r <= 200 * part + whole < 2 * whole * (r + 1);
    assert 200 * part + whole <= 201 * whole;
    if r < 0 {
      MulMonotone(whole, r + 1, 0);
    }
    if r > 100 {
      MulMonotone(whole, 202, 2 * r);
    }
  }

  /** A rounded quotient of a total lies between the smallest and the
      largest value that total can be made of. */
  lemma RoundedWithin(t: int, n: int, a: int, lo: int, hi: int)
    requires n > 0
    requires n * lo <= t <= n * hi
    requires 2 * n * a <= 2 * t + n < 2 * n * (a + 1)
    ensures lo <= a <= hi
  {
    assert 2 * n * (hi + 1) == 2 * (n * hi) + 2 * n;
    assert 2 * n * lo == 2 * (n * lo);
    if a > hi {
      MulMonotone(2 * n, hi + 1, a);
      assert false;
    }
    if a < lo {
      MulMonotone(2 * n, a + 1, lo);
      assert false;
    }
  }

  lemma MulMonotone(w: int, a: int, b: int)
    requires w > 0 && a <= b
    ensures w * a <= w * b
  {
  }
}
