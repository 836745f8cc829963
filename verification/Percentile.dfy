/** `_percentile` of the load probe: linear interpolation between the samples around rank (n - 1) * p. */
module Percentile {

  // ----- sorting -----

  predicate Ascending(s: seq<real>)
  {
    forall i, j :: 0 <= i < j < |s| ==> s[i] <= s[j]
  }

  function Insert(x: real, s: seq<real>): (r: seq<real>)
    ensures multiset(r) == multiset{x} + multiset(s) && |r| == |s| + 1
  {
    if s == [] || x <= s[0] then [x] + s
    else
      assert s == [s[0]] + s[1..];
      [s[0]] + Insert(x, s[1..])
  }

  function Sorted(s: seq<real>): (r: seq<real>)
    ensures multiset(r) == multiset(s) && |r| == |s|
  {
    if s == [] then [] else
    assert s == [s[0]] + s[1..];
    Insert(s[0], Sorted(s[1..]))
  }

  lemma {:induction false} InsertAscending(x: real, s: seq<real>)
    requires Ascending(s)
    ensures Ascending(Insert(x, s))
  {
    if s != [] && x > s[0] {
      InsertAscending(x, s[1..]);
      var rest := Insert(x, s[1..]);
      forall j | 0 <= j < |rest| ensures s[0] <= rest[j] {
        assert rest[j] in multiset(rest);
        assert rest[j] == x || rest[j] in s[1..];
      }
    }
  }

  lemma {:induction false} SortedAscending(s: seq<real>)
    ensures Ascending(Sorted(s))
  {
    if s != [] {
      SortedAscending(s[1..]);
      InsertAscending(s[0], Sorted(s[1..]));
    }
  }

  /** The least sample comes first. */
  lemma HeadLeast(s: seq<real>, x: real)
    requires Ascending(s) && x in multiset(s)
    ensures s != [] && s[0] <= x
  {
    assert x in s;
  }

  lemma TailSamples(s: seq<real>)
    requires s != []
    ensures multiset(s[1..]) == multiset(s) - multiset{s[0]}
  {
    assert s == [s[0]] + s[1..];
  }

  lemma SameHeads(a: seq<real>, b: seq<real>)
    requires a != [] && Ascending(a) && Ascending(b) && multiset(a) == multiset(b)
    ensures b != [] && a[0] == b[0]
  {
    assert a[0] in multiset(a);
    HeadLeast(b, a[0]);
    assert b[0] in multiset(b);
    HeadLeast(a, b[0]);
  }

  /** Ascending sequences of the same samples are the same sequence. */
  lemma {:induction false} AscendingUnique(a: seq<real>, b: seq<real>)
    requires Ascending(a) && Ascending(b) && multiset(a) == multiset(b)
    ensures a == b
  {
    if a == [] {
      assert |multiset(b)| == 0;
    } else {
      SameHeads(a, b);
      TailSamples(a);
      TailSamples(b);
      AscendingUnique(a[1..], b[1..]);
      assert a == [a[0]] + a[1..] && b == [b[0]] + b[1..];
    }
  }

  // ----- the percentile -----

  /** The value at a fractional rank of a sorted sample. */
  function AtRank(ordered: seq<real>, k: real): real
    requires 0.0 <= k <= (|ordered| - 1) as real
  {
    var f := k.Floor;
    if f as real == k then ordered[f] else Mix(ordered[f], ordered[f + 1], (f + 1) as real - k, k - f as real)
  }

  function Mix(lo: real, hi: real, v: real, w: real): real
  {
    lo * v + hi * w
  }

  lemma Product(a: real, b: real)
    requires a >= 0.0 && b >= 0.0
    ensures a * b >= 0.0
  {
  }

  /** The rank of a percentile lies within the sample. */
  function Rank(top: real, p: real): (k: real)
    requires 0.0 <= top && 0.0 <= p <= 1.0
    ensures 0.0 <= k <= top
  {
    Product(top, p);
    Product(top, 1.0 - p);
    assert top * (1.0 - p) == top - top * p;
    top * p
  }

  function Of(values: seq<real>, p: real): real
    requires 0.0 <= p <= 1.0
  {
    if values == [] then 0.0 else OfSorted(Sorted(values), p)
  }

  function OfSorted(ordered: seq<real>, p: real): real
    requires ordered != [] && 0.0 <= p <= 1.0
  {
    AtRank(ordered, Rank((|ordered| - 1) as real, p))
  }

  // ----- properties -----

  /** Interpolating between two values stays between them. */
  lemma Between(lo: real, hi: real, w: real)
    requires lo <= hi && 0.0 <= w <= 1.0
    ensures lo <= Mix(lo, hi, 1.0 - w, w) <= hi
  {
    Product(hi - lo, w);
    Product(hi - lo, 1.0 - w);
  }

  /** More weight on the greater value gives no less. */
  lemma BetweenGrows(lo: real, hi: real, v: real, w: real)
    requires lo <= hi && v <= w
    ensures Mix(lo, hi, 1.0 - v, v) <= Mix(lo, hi, 1.0 - w, w)
  {
    Product(hi - lo, w - v);
  }

  /** Interpolation within segment f, with the weight it gives to the upper sample. */
  lemma InSegment(ordered: seq<real>, k: real)
    requires 0.0 <= k < (|ordered| - 1) as real
    ensures 0 <= k.Floor < |ordered| - 1
    ensures var w := k - k.Floor as real; 0.0 <= w <= 1.0 && AtRank(ordered, k) == Mix(ordered[k.Floor], ordered[k.Floor + 1], 1.0 - w, w)
  {
    var f := k.Floor;
    assert 1.0 - (k - f as real) == (f + 1) as real - k;
  }

  lemma AtRankGrows(ordered: seq<real>, k: real, m: real)
    requires Ascending(ordered) && 0.0 <= k <= m <= (|ordered| - 1) as real
    ensures AtRank(ordered, k) <= AtRank(ordered, m)
  {
    if k < m {
      var f, g := k.Floor, m.Floor;
      InSegment(ordered, k);
      Between(ordered[f], ordered[f + 1], k - f as real);
      if m < (|ordered| - 1) as real {
        InSegment(ordered, m);
        Between(ordered[g], ordered[g + 1], m - g as real);
        if f == g {
          BetweenGrows(ordered[f], ordered[f + 1], k - f as real, m - f as real);
        }
      }
    }
  }

  lemma RankGrows(top: real, p: real, q: real)
    requires 0.0 <= top && 0.0 <= p <= q <= 1.0
    ensures Rank(top, p) <= Rank(top, q)
  {
    Product(top, q - p);
  }

  /** The percentile does not decrease in p, across the segments between samples. */
  lemma MonotoneInP(values: seq<real>, p: real, q: real)
    requires 0.0 <= p <= q <= 1.0
    ensures Of(values, p) <= Of(values, q)
  {
    if values != [] {
      var top := (|values| - 1) as real;
      SortedAscending(values);
      RankGrows(top, p, q);
      AtRankGrows(Sorted(values), Rank(top, p), Rank(top, q));
    }
  }

  /** The three percentiles of the probe's report are in order. */
  lemma ReportedInOrder(values: seq<real>)
    ensures Of(values, 0.5) <= Of(values, 0.95) <= Of(values, 0.99)
  {
    MonotoneInP(values, 0.5, 0.95);
    MonotoneInP(values, 0.95, 0.99);
  }

  lemma Ends(values: seq<real>)
    requires values != []
    ensures Of(values, 0.0) == Sorted(values)[0] && Of(values, 1.0) == Sorted(values)[|values| - 1]
  {
    var top := (|values| - 1) as real;
    assert Rank(top, 0.0) == 0.0 && Rank(top, 1.0) == top;
  }

  lemma SameMembers(a: seq<real>, b: seq<real>)
    requires multiset(a) == multiset(b)
    ensures forall x :: x in a <==> x in b
  {
    forall x ensures x in a <==> x in b {
      assert x in a <==> x in multiset(a);
      assert x in b <==> x in multiset(b);
    }
  }

  lemma AscendingBounds(ordered: seq<real>, x: real)
    requires Ascending(ordered) && x in ordered
    ensures ordered[0] <= x <= ordered[|ordered| - 1]
  {
  }

  lemma SortedBounds(values: seq<real>)
    requires values != []
    ensures Sorted(values)[0] in values && Sorted(values)[|values| - 1] in values
    ensures forall x :: x in values ==> Sorted(values)[0] <= x <= Sorted(values)[|values| - 1]
  {
    var ordered := Sorted(values);
    SortedAscending(values);
    SameMembers(ordered, values);
    assert ordered[0] in ordered && ordered[|ordered| - 1] in ordered;
    forall x | x in values ensures ordered[0] <= x <= ordered[|ordered| - 1] {
      AscendingBounds(ordered, x);
    }
  }

  /** Percentile 0 is the least sample and percentile 1 the greatest; all others lie between them. */
  lemma WithinSamples(values: seq<real>, p: real)
    requires values != [] && 0.0 <= p <= 1.0
    ensures Of(values, 0.0) in values && Of(values, 1.0) in values
    ensures forall x :: x in values ==> Of(values, 0.0) <= x <= Of(values, 1.0)
    ensures Of(values, 0.0) <= Of(values, p) <= Of(values, 1.0)
  {
    Ends(values);
    SortedBounds(values);
    MonotoneInP(values, 0.0, p);
    MonotoneInP(values, p, 1.0);
  }

  /** The order of the samples does not matter. */
  lemma OrderIrrelevant(a: seq<real>, b: seq<real>, p: real)
    requires multiset(a) == multiset(b) && 0.0 <= p <= 1.0
    ensures Of(a, p) == Of(b, p)
  {
    SortedAscending(a);
    SortedAscending(b);
    AscendingUnique(Sorted(a), Sorted(b));
    assert a == [] <==> Sorted(a) == [];
  }

  /** Mixing two values goes the weight's share of the way from the lower to the upper. */
  lemma MixIsShare(lo: real, hi: real, w: real)
    ensures Mix(lo, hi, 1.0 - w, w) - lo == w * (hi - lo)
  {
  }

  lemma AtRankIsLinear(s: seq<real>, k: real, f: nat)
    requires f + 1 < |s| && f as real <= k <= (f + 1) as real
    ensures AtRank(s, k) - s[f] == (k - f as real) * (s[f + 1] - s[f])
  {
    if k == (f + 1) as real {
      assert k.Floor == f + 1;
    } else {
      assert k.Floor == f;
      InSegment(s, k);
      MixIsShare(s[f], s[f + 1], k - f as real);
    }
  }

  /** Whatever arrangement of the samples is ascending, the percentile is read from it at (n - 1) * p. */
  lemma ReadFrom(values: seq<real>, s: seq<real>, p: real, k: real)
    requires s != [] && 0.0 <= p <= 1.0 && Ascending(s) && multiset(s) == multiset(values) && k == (|s| - 1) as real * p
    ensures |values| == |s| && 0.0 <= k <= (|s| - 1) as real && Of(values, p) == AtRank(s, k)
  {
    assert |multiset(s)| == |s| && |multiset(values)| == |values|;
    SortedAscending(values);
    AscendingUnique(Sorted(values), s);
    assert Rank((|s| - 1) as real, p) == k;
  }

  /**
    The percentile on the segment between two neighbours of the arranged samples: as far above the lower
    one as (n - 1) * p is above its position, in proportion.
   */
  lemma Interpolates(values: seq<real>, s: seq<real>, p: real, k: real, f: nat)
    requires 0.0 <= p <= 1.0 && Ascending(s) && multiset(s) == multiset(values)
    requires f + 1 < |s| && k == (|s| - 1) as real * p && f as real <= k <= (f + 1) as real
    ensures |values| == |s|
    ensures Of(values, p) - s[f] == (k - f as real) * (s[f + 1] - s[f])
  {
    ReadFrom(values, s, p, k);
    AtRankIsLinear(s, k, f);
  }

  /** A single sample is every percentile of itself; no sample gives zero. */
  lemma FewSamples(x: real, p: real)
    requires 0.0 <= p <= 1.0
    ensures Of([x], p) == x && Of([], p) == 0.0
  {
    WithinSamples([x], p);
  }

  function UpTo(n: nat): seq<real>
  {
    seq(n, i => i as real)
  }

  lemma AtRankUniform(n: nat, k: real)
    requires n >= 2 && 0.0 <= k <= (n - 1) as real
    ensures AtRank(UpTo(n), k) == k
  {
    var s := UpTo(n);
    var f := if k.Floor == n - 1 then n - 2 else k.Floor;
    AtRankIsLinear(s, k, f);
    assert s[f + 1] - s[f] == 1.0;
  }

  /** Of the samples 0, 1, .., n - 1 the percentile at p is (n - 1) * p itself. */
  lemma OfUniform(n: nat, p: real, k: real)
    requires n >= 1 && 0.0 <= p <= 1.0 && k == (n - 1) as real * p
    ensures Of(UpTo(n), p) == k
  {
    ReadFrom(UpTo(n), UpTo(n), p, k);
    if n > 1 {
      AtRankUniform(n, k);
    }
  }
}
