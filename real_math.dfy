/**
 * The numeric building blocks the estimator uses: `Math.round`, the `reduce`
 * sum and mean, `Math.max`/`Math.min` over a spread slice, and the ascending
 * sort of a list of numbers. Numbers are exact reals.
 */
module RealMath {

  /** `Math.round`: the nearest integer, halves rounded towards +infinity. */
  function Round(x: real): (r: int)
    ensures r as real - 0.5 <= x < r as real + 0.5
  {
    (x + 0.5).Floor
  }

  /** Rounding is monotone. */
  lemma RoundMonotone(x: real, y: real)
    requires x <= y
    ensures Round(x) <= Round(y)
  {
  }

  lemma MulNonNegative(u: real, v: real)
    requires u >= 0.0 && v >= 0.0
    ensures u * v >= 0.0
  {
  }

  /** Dividing by a larger positive number gives no more. */
  lemma DivAntitone(c: real, u: real, v: real)
    requires c >= 0.0 && 0.0 < u <= v
    ensures c / v <= c / u
  {
    assert c / v * v == c && c / u * u == c;
    if c / v > c / u {
      MulNonNegative(c / v - c / u, u);
      MulNonNegative(c / v, v - u);
    }
  }

  /** Dividing by the same positive number keeps the order. */
  lemma DivMonotone(a: real, b: real, d: real)
    requires a <= b && d > 0.0
    ensures a / d <= b / d
  {
    MulNonNegative(b - a, 1.0 / d);
  }

  /** A quotient is at most `q` when the dividend is at most `q` times the divisor. */
  lemma DivAtMost(a: real, d: real, q: real)
    requires d > 0.0 && a <= q * d
    ensures a / d <= q
  {
    DivMonotone(a, q * d, d);
  }

  /** `s.reduce((a, b) => a + b, 0)`: a left fold of `+` starting at 0. */
  function Sum(s: seq<real>): real
  {
    if s == [] then 0.0 else Sum(s[..|s| - 1]) + s[|s| - 1]
  }

  /** The sum of a prefix extended by one element. */
  lemma SumPrefix(s: seq<real>, n: nat)
    requires n < |s|
    ensures Sum(s[..n + 1]) == Sum(s[..n]) + s[n]
  {
    assert s[..n + 1][..n] == s[..n];
  }

  /** Subtracting every term from `c` turns the sum `S` of `n` terms into `n*c - S`. */
  lemma {:induction false} SumOfDifferences(s: seq<real>, c: real)
    ensures Sum(seq(|s|, i requires 0 <= i < |s| => c - s[i])) == c * |s| as real - Sum(s)
  {
    var d := seq(|s|, i requires 0 <= i < |s| => c - s[i]);
    if s != [] {
      var s' := s[..|s| - 1];
      SumOfDifferences(s', c);
      assert d[..|d| - 1] == seq(|s'|, i requires 0 <= i < |s'| => c - s'[i]);
    }
  }

  /** The arithmetic mean, `reduce(+) / length`. */
  function Mean(s: seq<real>): real
    requires |s| > 0
  {
    Sum(s) / |s| as real
  }

  /** `Math.max(...s)` of a non-empty list. */
  function Max(s: seq<real>): real
    requires |s| > 0
  {
    if |s| == 1 then s[0]
    else
      var m := Max(s[..|s| - 1]);
      if s[|s| - 1] > m then s[|s| - 1] else m
  }

  /** The maximum is an element no smaller than any other. */
  lemma {:induction false} MaxIsGreatest(s: seq<real>)
    requires |s| > 0
    ensures Max(s) in s
    ensures forall k :: 0 <= k < |s| ==> s[k] <= Max(s)
  {
    if |s| > 1 {
      var init := s[..|s| - 1];
      MaxIsGreatest(init);
      assert forall k :: 0 <= k < |init| ==> s[k] == init[k];
    }
  }

  /** `Math.min(...s)` of a non-empty list. */
  function Min(s: seq<real>): real
    requires |s| > 0
  {
    if |s| == 1 then s[0]
    else
      var m := Min(s[..|s| - 1]);
      if s[|s| - 1] < m then s[|s| - 1] else m
  }

  /** The minimum is an element no larger than any other. */
  lemma {:induction false} MinIsLeast(s: seq<real>)
    requires |s| > 0
    ensures Min(s) in s
    ensures forall k :: 0 <= k < |s| ==> Min(s) <= s[k]
  {
    if |s| > 1 {
      var init := s[..|s| - 1];
      MinIsLeast(init);
      assert forall k :: 0 <= k < |init| ==> s[k] == init[k];
    }
  }

  /** How many elements of `s` satisfy `p`. */
  function CountWhere(s: seq<real>, p: real -> bool): (c: nat)
    ensures c <= |s|
  {
    if s == [] then 0
    else CountWhere(s[..|s| - 1], p) + if p(s[|s| - 1]) then 1 else 0
  }

  /** The test "strictly below `x`". */
  function Below(x: real): real -> bool
  {
    y => y < x
  }

  /** The test "strictly above `x`". */
  function Above(x: real): real -> bool
  {
    y => y > x
  }

  /** Counting over a concatenation adds the counts of the parts. */
  lemma {:induction false} CountConcat(u: seq<real>, v: seq<real>, p: real -> bool)
    ensures CountWhere(u + v, p) == CountWhere(u, p) + CountWhere(v, p)
  {
    if v == [] {
      assert u + v == u;
    } else {
      CountConcat(u, v[..|v| - 1], p);
      assert (u + v)[..|u + v| - 1] == u + v[..|v| - 1];
    }
  }

  /** No element satisfies `p`: the count is zero. */
  lemma {:induction false} CountNone(s: seq<real>, p: real -> bool)
    requires forall k :: 0 <= k < |s| ==> !p(s[k])
    ensures CountWhere(s, p) == 0
  {
    if s != [] {
      CountNone(s[..|s| - 1], p);
    }
  }

  /** Removing the element at `j` removes one copy of it from the multiset. */
  lemma {:induction false} MultisetRemove(b: seq<real>, j: nat)
    requires j < |b|
    ensures multiset(b[..j] + b[j + 1..]) == multiset(b) - multiset{b[j]}
  {
    assert b == b[..j] + [b[j]] + b[j + 1..];
    assert multiset(b) == multiset(b[..j]) + multiset{b[j]} + multiset(b[j + 1..]);
  }

  /** Removing the element at `j` lowers the count by one exactly when it
      satisfies `p`. */
  lemma {:induction false} CountRemove(b: seq<real>, j: nat, p: real -> bool)
    requires j < |b|
    ensures CountWhere(b, p) == CountWhere(b[..j] + b[j + 1..], p) + if p(b[j]) then 1 else 0
  {
    var front, back := b[..j], b[j + 1..];
    var mid := front + [b[j]];
    assert b == mid + back;
    CountConcat(mid, back, p);
    assert [b[j]][..0] == [];
    assert CountWhere([b[j]], p) == if p(b[j]) then 1 else 0;
    CountConcat(front, [b[j]], p);
    CountConcat(front, back, p);
  }

  /** A permutation has the same count. */
  lemma {:induction false} CountPermutation(a: seq<real>, b: seq<real>, p: real -> bool)
    requires multiset(a) == multiset(b)
    ensures CountWhere(a, p) == CountWhere(b, p)
    decreases |a|
  {
    if a == [] {
      assert |b| == |multiset(b)| == 0;
    } else {
      var x, a' := a[|a| - 1], a[..|a| - 1];
      assert a == a' + [x];
      assert multiset(a') == multiset(a) - multiset{x};
      assert x in multiset(b);
      var j :| 0 <= j < |b| && b[j] == x;
      MultisetRemove(b, j);
      CountPermutation(a', b[..j] + b[j + 1..], p);
      CountRemove(b, j, p);
    }
  }

  predicate Sorted(s: seq<real>)
  {
    forall i, j :: 0 <= i <= j < |s| ==> s[i] <= s[j]
  }

  /** In an ascending list, at most `h` elements lie below the one at `h`. */
  lemma {:induction false} SortedCountBelow(t: seq<real>, h: nat)
    requires Sorted(t) && h < |t|
    ensures CountWhere(t, Below(t[h])) <= h
  {
    var p, front, back := Below(t[h]), t[..h], t[h..];
    assert t == front + back;
    CountConcat(front, back, p);
    forall k | 0 <= k < |back|
      ensures !p(back[k])
    {
      assert back[k] == t[h + k] && t[h] <= t[h + k];
    }
    CountNone(back, p);
  }

  /** In an ascending list, at most `|t| - h - 1` elements lie above the one at `h`. */
  lemma {:induction false} SortedCountAbove(t: seq<real>, h: nat)
    requires Sorted(t) && h < |t|
    ensures CountWhere(t, Above(t[h])) <= |t| - h - 1
  {
    var p, front, back := Above(t[h]), t[..h + 1], t[h + 1..];
    assert t == front + back;
    CountConcat(front, back, p);
    forall k | 0 <= k < |front|
      ensures !p(front[k])
    {
      assert front[k] == t[k] && t[k] <= t[h];
    }
    CountNone(front, p);
  }

  /** A value no larger than any element of an ascending list can go in front. */
  lemma PrependSorted(h: real, t: seq<real>)
    requires Sorted(t)
    requires forall k :: 0 <= k < |t| ==> h <= t[k]
    ensures Sorted([h] + t)
  {
  }

  /** Places `x` before the first element of `s` that is not smaller than it. */
  function Insert(x: real, s: seq<real>): seq<real>
  {
    if s == [] || x <= s[0] then [x] + s
    else [s[0]] + Insert(x, s[1..])
  }

  /** Inserting adds exactly one copy of `x`. */
  lemma {:induction false} InsertAddsOne(x: real, s: seq<real>)
    ensures multiset(Insert(x, s)) == multiset(s) + multiset{x}
  {
    if s != [] && x > s[0] {
      InsertAddsOne(x, s[1..]);
      assert s == [s[0]] + s[1..];
    }
  }

  /** Inserting a value that is at least `lo` among values at least `lo`
      leaves all of them at least `lo`. */
  lemma {:induction false} InsertAtLeast(x: real, s: seq<real>, lo: real)
    requires lo <= x
    requires forall k :: 0 <= k < |s| ==> lo <= s[k]
    ensures forall k :: 0 <= k < |Insert(x, s)| ==> lo <= Insert(x, s)[k]
  {
    if s != [] && x > s[0] {
      InsertAtLeast(x, s[1..], lo);
      var t := Insert(x, s[1..]);
      assert Insert(x, s) == [s[0]] + t;
    }
  }

  /** Inserting into an ascending list keeps it ascending. */
  lemma {:induction false} InsertKeepsSorted(x: real, s: seq<real>)
    requires Sorted(s)
    ensures Sorted(Insert(x, s))
  {
    if s != [] && x > s[0] {
      var t := Insert(x, s[1..]);
      InsertKeepsSorted(x, s[1..]);
      InsertAtLeast(x, s[1..], s[0]);
      PrependSorted(s[0], t);
      assert Insert(x, s) == [s[0]] + t;
    }
  }

  /** `s.sort((a, b) => a - b)`: an ascending permutation of `s`. */
  function Sort(s: seq<real>): (r: seq<real>)
    ensures Sorted(r)
    ensures multiset(r) == multiset(s)
    ensures |r| == |s|
  {
    assert |multiset(s)| == |s|;
    if s == [] then []
    else
      assert s == [s[0]] + s[1..];
      InsertAddsOne(s[0], Sort(s[1..]));
      InsertKeepsSorted(s[0], Sort(s[1..]));
      Insert(s[0], Sort(s[1..]))
  }
}
