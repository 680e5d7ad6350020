/** Small building blocks shared by the views: JavaScript truthiness, the array
    operations the views use (filter, reduce, slice, Set size, sort), case-insensitive
    substring search, and the integer and real rounding used for percentages. */
module Common {

  datatype Option<+T> = None | Some(value: T)

  /** JavaScript truthiness of an optional string field: present and not "". */
  predicate Truthy(s: Option<string>) {
    s.Some? && s.value != ""
  }

  function Min(a: int, b: int): int { if a <= b then a else b }

  function Max(a: int, b: int): int { if a >= b then a else b }

  // ---------------------------------------------------------------------------
  // Sequences

  /** `a` is obtained from `b` by deleting elements: an order-preserving sublist. */
  predicate IsSublist<T(==)>(a: seq<T>, b: seq<T>)
    decreases |b|
  {
    if a == [] then true
    else if b == [] then false
    else (a[0] == b[0] && IsSublist(a[1..], b[1..])) || IsSublist(a, b[1..])
  }

  lemma {:induction false} IsSublistRefl<T>(s: seq<T>)
    ensures IsSublist(s, s)
  {
    if s != [] {
      IsSublistRefl(s[1..]);
    }
  }

  /** A sublist of a sublist is a sublist. */
  lemma {:induction false} IsSublistTrans<T>(a: seq<T>, b: seq<T>, c: seq<T>)
    requires IsSublist(a, b) && IsSublist(b, c)
    ensures IsSublist(a, c)
    decreases |c|
  {
    if a != [] && c != [] {
      if IsSublist(b, c[1..]) {
        IsSublistTrans(a, b, c[1..]);
      } else if a[0] == b[0] && IsSublist(a[1..], b[1..]) {
        IsSublistTrans(a[1..], b[1..], c[1..]);
      } else {
        IsSublistTrans(a, b[1..], c[1..]);
      }
    }
  }

  /** `Array.prototype.filter`: keeps, in order, exactly the elements satisfying `p`,
      each with its original multiplicity. */
  function Filter<T(==,!new)>(s: seq<T>, p: T -> bool): (r: seq<T>)
    ensures |r| <= |s|
    ensures forall x :: x in r <==> x in s && p(x)
  {
    if s == [] then []
    else
      var rest := Filter(s[1..], p);
      if p(s[0]) then [s[0]] + rest else rest
  }

  /** Filtering keeps the order of the kept elements. */
  lemma {:induction false} FilterIsSublist<T(!new)>(s: seq<T>, p: T -> bool)
    ensures IsSublist(Filter(s, p), s)
  {
    if s != [] {
      FilterIsSublist(s[1..], p);
      var rest := Filter(s[1..], p);
      if !p(s[0]) && rest != [] {
        assert IsSublist(rest, s[1..]);
      }
    }
  }

  /** Each kept element keeps its multiplicity; each dropped one has none. */
  lemma {:induction false} FilterMultiplicity<T(!new)>(s: seq<T>, p: T -> bool, x: T)
    ensures multiset(Filter(s, p))[x] == if p(x) then multiset(s)[x] else 0
  {
    if s != [] {
      assert s == [s[0]] + s[1..];
      FilterMultiplicity(s[1..], p, x);
    }
  }

  lemma {:induction false} FilterAll<T(!new)>(s: seq<T>, p: T -> bool)
    requires forall x :: x in s ==> p(x)
    ensures Filter(s, p) == s
  {
    if s != [] {
      FilterAll(s[1..], p);
    }
  }

  lemma {:induction false} FilterFilter<T(!new)>(s: seq<T>, p: T -> bool, q: T -> bool)
    ensures Filter(Filter(s, p), q) == Filter(s, x => p(x) && q(x))
  {
    if s != [] {
      FilterFilter(s[1..], p, q);
    }
  }

  lemma {:induction false} FilterAppend<T(!new)>(a: seq<T>, b: seq<T>, p: T -> bool)
    ensures Filter(a + b, p) == Filter(a, p) + Filter(b, p)
  {
    if a == [] {
      assert a + b == b;
    } else {
      var ab := a + b;
      assert ab[0] == a[0] && ab[1..] == a[1..] + b;
      FilterAppend(a[1..], b, p);
    }
  }

  /** Filtering with a weaker predicate position by position keeps at least as many. */
  lemma {:induction false} FilterCountMonotone<T(!new)>(a: seq<T>, b: seq<T>, p: T -> bool)
    requires |a| == |b|
    requires forall i :: 0 <= i < |a| && p(a[i]) ==> p(b[i])
    ensures |Filter(a, p)| <= |Filter(b, p)|
  {
    if a != [] {
      FilterCountMonotone(a[1..], b[1..], p);
    }
  }

  /** `s.map(f)`. */
  function Map<T, U>(s: seq<T>, f: T -> U): (r: seq<U>)
    ensures |r| == |s|
    ensures forall i :: 0 <= i < |s| ==> r[i] == f(s[i])
  {
    seq(|s|, i requires 0 <= i < |s| => f(s[i]))
  }

  /** The values of `s.map(f)` are the images of the elements of `s`. */
  lemma MapMembership<T, U>(s: seq<T>, f: T -> U, y: U)
    ensures y in Map(s, f) <==> exists x :: x in s && f(x) == y
  {
    var m := Map(s, f);
    if y in m {
      var k :| 0 <= k < |m| && m[k] == y;
      assert s[k] in s && f(s[k]) == y;
    }
    if exists x :: x in s && f(x) == y {
      var x :| x in s && f(x) == y;
      var k :| 0 <= k < |s| && s[k] == x;
      assert m[k] == y;
    }
  }

  /** `s.slice(0, n)` for `n >= 0`. */
  function Take<T>(s: seq<T>, n: nat): (r: seq<T>)
    ensures |r| == Min(n, |s|) && |r| <= n
    ensures r == s[..|r|]
  {
    if n <= |s| then s[..n] else s
  }

  lemma TakeIsSublist<T>(s: seq<T>, n: nat)
    ensures IsSublist(Take(s, n), s)
  {
    PrefixIsSublist(s, Min(n, |s|));
  }

  lemma {:induction false} PrefixIsSublist<T>(s: seq<T>, k: nat)
    requires k <= |s|
    ensures IsSublist(s[..k], s)
  {
    if k > 0 {
      PrefixIsSublist(s[1..], k - 1);
      assert s[..k][1..] == s[1..][..k - 1];
    }
  }

  predicate NoDuplicates<T(==)>(s: seq<T>) {
    forall i, j :: 0 <= i < |s| && 0 <= j < |s| && i != j ==> s[i] != s[j]
  }

  /** `reduce((acc, x) => acc + f(x), 0)` over integers. */
  function Sum<T>(s: seq<T>, f: T -> int): (r: int)
    ensures (forall i :: 0 <= i < |s| ==> f(s[i]) >= 0) ==> r >= 0
  {
    if s == [] then 0 else f(s[0]) + Sum(s[1..], f)
  }

  lemma {:induction false} SumAppend<T>(a: seq<T>, b: seq<T>, f: T -> int)
    ensures Sum(a + b, f) == Sum(a, f) + Sum(b, f)
  {
    if a == [] {
      assert a + b == b;
    } else {
      assert (a + b)[1..] == a[1..] + b;
      SumAppend(a[1..], b, f);
    }
  }

  lemma {:induction false} SumAdd<T>(s: seq<T>, f: T -> int, g: T -> int, h: T -> int)
    requires forall i :: 0 <= i < |s| ==> h(s[i]) == f(s[i]) + g(s[i])
    ensures Sum(s, h) == Sum(s, f) + Sum(s, g)
  {
    if s != [] {
      SumAdd(s[1..], f, g, h);
    }
  }

  /** Counting the positions of a duplicate-free list that hold `a`. */
  lemma {:induction false} SumIndicator<T>(s: seq<T>, a: T, f: T -> int)
    requires NoDuplicates(s)
    requires forall i :: 0 <= i < |s| ==> f(s[i]) == if s[i] == a then 1 else 0
    ensures Sum(s, f) == if a in s then 1 else 0
  {
    if s != [] {
      assert NoDuplicates(s[1..]) by {
        forall i, j | 0 <= i < |s[1..]| && 0 <= j < |s[1..]| && i != j ensures s[1..][i] != s[1..][j] {
          assert s[1..][i] == s[i + 1] && s[1..][j] == s[j + 1];
        }
      }
      SumIndicator(s[1..], a, f);
      if s[0] == a {
        assert a !in s[1..] by {
          forall i | 0 <= i < |s[1..]| ensures s[1..][i] != a {
            assert s[1..][i] == s[i + 1];
          }
        }
      }
      assert a in s <==> s[0] == a || a in s[1..];
    }
  }

  /** Sums grow when every term grows, position by position. */
  lemma {:induction false} SumPointwise<T, U>(a: seq<T>, f: T -> int, b: seq<U>, g: U -> int)
    requires |a| == |b|
    requires forall i :: 0 <= i < |a| ==> f(a[i]) <= g(b[i])
    ensures Sum(a, f) <= Sum(b, g)
  {
    if a != [] {
      SumPointwise(a[1..], f, b[1..], g);
    }
  }

  /** `reduce((acc, x) => acc + f(x), 0)` over real-valued fields. */
  function SumReal<T>(s: seq<T>, f: T -> real): real
  {
    if s == [] then 0.0 else f(s[0]) + SumReal(s[1..], f)
  }

  lemma {:induction false} SumRealBounds<T>(s: seq<T>, f: T -> real, lo: real, hi: real)
    requires forall x :: x in s ==> lo <= f(x) <= hi
    ensures |s| as real * lo <= SumReal(s, f) <= |s| as real * hi
  {
    if s != [] {
      SumRealBounds(s[1..], f, lo, hi);
      assert |s| as real == (|s| - 1) as real + 1.0;
    }
  }

  /** A mean of values within `[lo, hi]` lies within `[lo, hi]`. */
  lemma MeanBounds(sum: real, n: real, lo: real, hi: real)
    requires n > 0.0 && n * lo <= sum <= n * hi
    ensures lo <= sum / n <= hi
  {
  }

  /** The set of values `f` takes on `s`: what `new Set(s.map(f))` holds. */
  function Image<T(!new), U(!new)>(s: seq<T>, f: T -> U): (r: set<U>)
    ensures forall y :: y in r <==> exists x :: x in s && f(x) == y
  {
    if s == [] then {}
    else
      assert forall x :: x in s <==> x == s[0] || x in s[1..];
      {f(s[0])} + Image(s[1..], f)
  }

  lemma ImageSnoc<T(!new), U(!new)>(s: seq<T>, x: T, f: T -> U)
    ensures Image(s + [x], f) == Image(s, f) + {f(x)}
  {
    assert forall z :: z in s + [x] <==> z in s || z == x;
  }

  /** Sets built from a list and from one of its sublists (by membership). */
  lemma ImageSubset<T(!new), U(!new)>(a: seq<T>, b: seq<T>, f: T -> U)
    requires forall x :: x in a ==> x in b
    ensures Image(a, f) <= Image(b, f)
  {
  }

  /** The distinct elements of `s` in order of first occurrence: the key order of an
      object (or Set) filled from `s`. */
  function Dedup<T(==,!new)>(s: seq<T>): (r: seq<T>)
    ensures NoDuplicates(r)
    ensures forall x :: x in r <==> x in s
  {
    if s == [] then []
    else
      var p := Dedup(s[..|s| - 1]);
      assert forall x :: x in s <==> x in s[..|s| - 1] || x == s[|s| - 1];
      if s[|s| - 1] in p then p else p + [s[|s| - 1]]
  }

  /** A Set built from a list never has more elements than the list, and has at least
      one when the list is nonempty. */
  lemma {:induction false} ImageSize<T(!new), U(!new)>(s: seq<T>, f: T -> U)
    ensures |Image(s, f)| <= |s|
    ensures s != [] ==> |Image(s, f)| >= 1
  {
    if s != [] {
      ImageSize(s[1..], f);
      assert f(s[0]) in Image(s, f);
    }
  }

  // ---------------------------------------------------------------------------
  // Strings

  /** `toLowerCase` on the ASCII letters. */
  function ToLowerChar(c: char): (r: char)
    ensures 'A' <= c <= 'Z' ==> 'a' <= r <= 'z'
    ensures !('A' <= c <= 'Z') ==> r == c
  {
    if 'A' <= c <= 'Z' then (c as int + 32) as char else c
  }

  function ToLower(s: string): (r: string)
    ensures |r| == |s|
    ensures forall i :: 0 <= i < |s| ==> r[i] == ToLowerChar(s[i])
  {
    if s == [] then [] else [ToLowerChar(s[0])] + ToLower(s[1..])
  }

  predicate StartsWith(s: string, prefix: string) {
    |prefix| <= |s| && s[..|prefix|] == prefix
  }

  /** `hay.includes(needle)`. */
  predicate Contains(hay: string, needle: string)
    decreases |hay|
  {
    StartsWith(hay, needle) || (hay != [] && Contains(hay[1..], needle))
  }

  /** `needle` occurs in `hay` starting at offset `i`. */
  predicate OccursAt(hay: string, needle: string, i: int) {
    0 <= i <= |hay| - |needle| && hay[i..i + |needle|] == needle
  }

  /** `Contains` agrees with the reference definition: `needle` occurs at some offset. */
  lemma {:induction false} ContainsIff(hay: string, needle: string)
    ensures Contains(hay, needle) <==> exists i :: OccursAt(hay, needle, i)
  {
    if Contains(hay, needle) {
      if StartsWith(hay, needle) {
        assert OccursAt(hay, needle, 0);
      } else {
        ContainsIff(hay[1..], needle);
        var i :| OccursAt(hay[1..], needle, i);
        assert hay[1..][i..i + |needle|] == hay[i + 1..i + 1 + |needle|];
        assert OccursAt(hay, needle, i + 1);
      }
    }
    if exists i :: OccursAt(hay, needle, i) {
      var i :| OccursAt(hay, needle, i);
      if i == 0 {
        assert StartsWith(hay, needle);
      } else {
        assert hay[1..][i - 1..i - 1 + |needle|] == hay[i..i + |needle|];
        assert OccursAt(hay[1..], needle, i - 1);
        ContainsIff(hay[1..], needle);
      }
    }
  }

  /** `hay.toLowerCase().includes(term.toLowerCase())`. */
  predicate IncludesIgnoreCase(hay: string, term: string) {
    Contains(ToLower(hay), ToLower(term))
  }

  lemma EmptyTermMatches(hay: string)
    ensures IncludesIgnoreCase(hay, "")
  {
    assert ToLower("") == "";
    assert StartsWith(ToLower(hay), "");
  }

  /** The decimal digit for `d`. */
  function Digit(d: nat): (c: char)
    requires d < 10
    ensures '0' <= c <= '9' && c as int - '0' as int == d
  {
    ('0' as int + d) as char
  }

  /** `String(n)` for a non-negative integer: decimal digits, no leading zero. */
  function NatToString(n: nat): (s: string)
    ensures |s| >= 1 && (forall i :: 0 <= i < |s| ==> '0' <= s[i] <= '9')
    ensures |s| > 1 ==> s[0] != '0'
  {
    if n < 10 then [Digit(n)] else NatToString(n / 10) + [Digit(n % 10)]
  }

  /** The number a string of decimal digits denotes. */
  function DecimalValue(s: string): int {
    if s == [] then 0 else 10 * DecimalValue(s[..|s| - 1]) + (s[|s| - 1] as int - '0' as int)
  }

  /** Reading the rendered digits back gives the number. */
  lemma {:induction false} NatToStringRoundTrip(n: nat)
    ensures DecimalValue(NatToString(n)) == n
  {
    var s := NatToString(n);
    if n < 10 {
      assert s[..|s| - 1] == [];
    } else {
      assert s[..|s| - 1] == NatToString(n / 10);
      NatToStringRoundTrip(n / 10);
    }
  }

  /** `String(i)` for any integer. */
  function IntToString(i: int): (s: string)
    ensures i >= 0 ==> s == NatToString(i)
    ensures i < 0 ==> s == "-" + NatToString(-i)
  {
    if i < 0 then "-" + NatToString(-i) else NatToString(i)
  }

  /** JavaScript `<` on strings: lexicographic order of the characters. */
  predicate StrLess(a: string, b: string)
    decreases |a|
  {
    if a == [] then b != []
    else if b == [] then false
    else if a[0] != b[0] then a[0] < b[0]
    else StrLess(a[1..], b[1..])
  }

  lemma {:induction false} StrLessIrreflexive(a: string)
    ensures !StrLess(a, a)
  {
    if a != [] {
      StrLessIrreflexive(a[1..]);
    }
  }

  lemma {:induction false} StrLessTransitive(a: string, b: string, c: string)
    requires StrLess(a, b) && StrLess(b, c)
    ensures StrLess(a, c)
  {
    if a != [] && b != [] && c != [] && a[0] == b[0] && b[0] == c[0] {
      StrLessTransitive(a[1..], b[1..], c[1..]);
    }
  }

  lemma {:induction false} StrLessTotal(a: string, b: string)
    requires a != b
    ensures StrLess(a, b) || StrLess(b, a)
  {
    if a != [] && b != [] && a[0] == b[0] {
      assert a == [a[0]] + a[1..] && b == [b[0]] + b[1..];
      StrLessTotal(a[1..], b[1..]);
    }
  }

  predicate StrictlySorted(s: seq<string>) {
    forall i, j :: 0 <= i < j < |s| ==> StrLess(s[i], s[j])
  }

  lemma StrictlySortedNoDuplicates(s: seq<string>)
    requires StrictlySorted(s)
    ensures NoDuplicates(s)
  {
    forall i, j | 0 <= i < |s| && 0 <= j < |s| && i != j
      ensures s[i] != s[j]
    {
      if i < j { StrLessIrreflexive(s[i]); } else { StrLessIrreflexive(s[j]); }
    }
  }

  /** Inserts `x` into a strictly sorted list unless it is already there. */
  function InsertUnique(x: string, s: seq<string>): (r: seq<string>)
    requires StrictlySorted(s)
    ensures StrictlySorted(r)
    ensures forall y :: y in r <==> y == x || y in s
  {
    if s == [] then [x]
    else if x == s[0] then s
    else if StrLess(x, s[0]) then
      assert forall j :: 0 < j < |s| ==> StrLess(x, s[j]) by {
        forall j | 0 < j < |s| ensures StrLess(x, s[j]) { StrLessTransitive(x, s[0], s[j]); }
      }
      [x] + s
    else
      StrLessTotal(x, s[0]);
      var tail := InsertUnique(x, s[1..]);
      assert forall y :: y in tail ==> StrLess(s[0], y);
      [s[0]] + tail
  }

  /** `Array.from(new Set(s)).sort()`: the distinct strings of `s` in ascending order. */
  function SortedUnique(s: seq<string>): (r: seq<string>)
    ensures StrictlySorted(r)
    ensures forall y :: y in r <==> y in s
  {
    if s == [] then [] else InsertUnique(s[0], SortedUnique(s[1..]))
  }

  // ---------------------------------------------------------------------------
  // Sorting by a numeric key, descending

  predicate SortedDescBy<T>(s: seq<T>, key: T -> int) {
    forall i, j :: 0 <= i < j < |s| ==> key(s[i]) >= key(s[j])
  }

  function InsertDescBy<T>(x: T, s: seq<T>, key: T -> int): (r: seq<T>)
    requires SortedDescBy(s, key)
    ensures SortedDescBy(r, key)
    ensures multiset(r) == multiset{x} + multiset(s)
    ensures |r| == |s| + 1
    ensures r[0] == x || (s != [] && r[0] == s[0])
  {
    if s == [] || key(x) >= key(s[0]) then
      [x] + s
    else
      var tail := InsertDescBy(x, s[1..], key);
      assert s == [s[0]] + s[1..];
      assert key(s[0]) >= key(tail[0]);
      [s[0]] + tail
  }

  /** `s.sort((a, b) => key(b) - key(a))`: a permutation of `s` in descending key order
      (an insertion sort, which like the JavaScript sort keeps ties in input order). */
  function SortDescBy<T>(s: seq<T>, key: T -> int): (r: seq<T>)
    ensures SortedDescBy(r, key)
    ensures multiset(r) == multiset(s)
    ensures |r| == |s|
  {
    if s == [] then []
    else
      assert s == [s[0]] + s[1..];
      InsertDescBy(s[0], SortDescBy(s[1..], key), key)
  }

  // ---------------------------------------------------------------------------
  // Arithmetic

  /** `Math.round(x)`: the nearest integer, halves rounded up. */
  function RoundReal(x: real): (r: int)
    ensures r as real <= x + 0.5 < r as real + 1.0
  {
    (x + 0.5).Floor
  }

  lemma RoundRealBounds(x: real, lo: int, hi: int)
    requires lo as real <= x <= hi as real
    ensures lo <= RoundReal(x) <= hi
  {
  }

  /** `Number(x.toFixed(2))` on exact values: the nearest hundredth, halves rounded away
      from zero. */
  function ToFixed2(x: real): (r: real)
    ensures x >= 0.0 ==> r * 100.0 == RoundReal(x * 100.0) as real
    ensures x < 0.0 ==> r * 100.0 == -(RoundReal(-x * 100.0) as real)
  {
    if x >= 0.0 then RoundReal(x * 100.0) as real / 100.0 else -(RoundReal(-x * 100.0) as real / 100.0)
  }

  /** Rounding to hundredths moves a value by at most half a hundredth and keeps it
      within any integer bounds it had. */
  lemma ToFixed2Bounds(x: real, lo: int, hi: int)
    ensures -0.005 <= ToFixed2(x) - x <= 0.005
    ensures lo as real <= x <= hi as real ==> lo as real <= ToFixed2(x) <= hi as real
  {
    if lo as real <= x <= hi as real {
      if x >= 0.0 {
        RoundRealBounds(x * 100.0, 100 * lo, 100 * hi);
      } else {
        RoundRealBounds(-x * 100.0, -100 * hi, -100 * lo);
      }
    }
  }

  /** `Math.round(k / t * scale)` on exact values, in integers: the nearest integer to
      k * scale / t, halves rounded up. */
  function RoundRatio(k: nat, t: nat, scale: nat): (r: nat)
    requires t > 0
    ensures 2 * t * r <= 2 * scale * k + t < 2 * t * r + 2 * t
  {
    var n, d := 2 * scale * k + t, 2 * t;
    assert d * (n / d) + n % d == n;
    n / d
  }

  lemma MulLeMono(c: int, a: int, b: int)
    requires c >= 0 && a <= b
    ensures c * a <= c * b
  {
  }

  lemma MulLtCancel(c: int, a: int, b: int)
    requires c > 0 && c * a < c * b
    ensures a < b
  {
  }

  lemma RealMulLeCancel(c: real, a: real, b: real)
    requires c > 0.0 && c * a <= c * b
    ensures a <= b
  {
  }

  lemma RealMulLtCancel(c: real, a: real, b: real)
    requires c > 0.0 && c * a < c * b
    ensures a < b
  {
  }

  /** Cancelling a positive factor `c` from `c * lo <= c * y < c * lo + c` pins the
      floor of `y`. */
  lemma RealBracket(c: real, y: real, lo: int, m: real)
    requires c > 0.0 && c * y == m && c * lo as real <= m < c * lo as real + c
    ensures y.Floor == lo
  {
    var l := lo as real;
    RealMulLeCancel(c, l, y);
    assert c * l + c == c * (l + 1.0);
    RealMulLtCancel(c, y, l + 1.0);
  }

  lemma ScaledRatio(k: nat, t: nat, scale: nat) returns (y: real)
    requires t > 0
    ensures y == k as real / t as real * scale as real + 0.5
    ensures 2.0 * t as real * y == (2 * scale * k + t) as real
  {
    var tr, kr, sr := t as real, k as real, scale as real;
    var q := kr / tr;
    assert q * tr == kr;
    y := q * sr + 0.5;
    assert 2.0 * tr * y == 2.0 * sr * (q * tr) + tr;
  }

  lemma RoundRatioAsReal(k: nat, t: nat, scale: nat, r: int)
    requires t > 0
    requires 2 * t * r <= 2 * scale * k + t < 2 * t * r + 2 * t
    ensures 2.0 * t as real * r as real <= (2 * scale * k + t) as real
    ensures (2 * scale * k + t) as real < 2.0 * t as real * r as real + 2.0 * t as real
  {
    var tr, rr := t as real, r as real;
    assert (2 * t * r) as real == 2.0 * tr * rr;
    assert (2 * t * r) as real <= (2 * scale * k + t) as real < (2 * t * r + 2 * t) as real;
  }

  /** The integer formula is exactly `Math.round` of the exact quotient. */
  lemma RoundRatioIsRound(k: nat, t: nat, scale: nat)
    requires t > 0
    ensures RoundRatio(k, t, scale) == RoundReal(k as real / t as real * scale as real)
  {
    var r := RoundRatio(k, t, scale);
    var y := ScaledRatio(k, t, scale);
    RoundRatioAsReal(k, t, scale, r);
    RealBracket(2.0 * t as real, y, r, (2 * scale * k + t) as real);
  }

  /** A rate of whole lectures never exceeds 100, and it reads 100 as soon as at least
      99.5% of the lectures are done. */
  lemma RoundPercentAtMost100(k: nat, t: nat)
    requires 0 < t && k <= t
    ensures RoundRatio(k, t, 100) <= 100
    ensures RoundRatio(k, t, 100) == 100 <==> 200 * k >= 199 * t
  {
    var r := RoundRatio(k, t, 100);
    MulLeMono(200, k, t);
    assert 2 * t * r < 2 * t * 101;
    MulLtCancel(2 * t, r, 101);
    if 200 * k >= 199 * t {
      assert 2 * t * 100 < 2 * t * (r + 1);
      MulLtCancel(2 * t, 100, r + 1);
    }
  }

  // ---------------------------------------------------------------------------
  // Time, as integer milliseconds since the epoch

  const DayMs := 86400000

  /** The first millisecond of the day holding `ts` (days counted in UTC). */
  function DayStart(ts: int): (r: int)
    ensures r <= ts < r + DayMs
    ensures r % DayMs == 0
  {
    FloorDiv(ts, DayMs) * DayMs
  }

  /** `setHours(23, 59, 59, 999)` applied to a day start. */
  function EndOfDay(day: int): int {
    day + DayMs - 1
  }

  /** `Math.floor(a / d)` for a positive divisor. */
  function FloorDiv(a: int, d: int): (r: int)
    requires d > 0
    ensures d * r <= a < d * r + d
  {
    assert d * (a / d) + a % d == a;
    a / d
  }

  /** `Math.ceil(a / d)` for a positive divisor. */
  function CeilDiv(a: int, d: int): (r: int)
    requires d > 0
    ensures d * r - d < a <= d * r
  {
    var q := FloorDiv(-a, d);
    -q
  }

  // ---------------------------------------------------------------------------
  // Refresh

  /** The `refreshKey` state of a view that re-fetches whenever a lecture is marked
      completed anywhere in the application. */
  class RefreshCounter {
    var refreshKey: nat

    constructor ()
      ensures refreshKey == 0
    {
      refreshKey := 0;
    }

    /** The `lectureCompleted` listener: `setRefreshKey(prev => prev + 1)`. */
    method LectureCompleted()
      modifies this
      ensures refreshKey == old(refreshKey) + 1
    {
      refreshKey := refreshKey + 1;
    }
  }
}
