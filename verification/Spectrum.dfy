/** Baseline and hits of a power spectrum, over real numbers: what they should be,
    what the scan computes, and why the two agree. A vector of powers is a row of
    regions (one spectrum each) of `n` bins; `r` is the smoothing radius. */
module Spectrum {
  import opened Arith

  /** Sum of the powers of bins lo .. hi. */
  function Sum(p: seq<real>, lo: nat, hi: nat): real
    requires lo <= hi <= |p|
  {
    if lo == hi then 0.0 else Sum(p, lo, hi - 1) + p[hi - 1]
  }

  lemma {:induction false} SumSplit(p: seq<real>, lo: nat, mid: nat, hi: nat)
    requires lo <= mid <= hi <= |p|
    ensures Sum(p, lo, hi) == Sum(p, lo, mid) + Sum(p, mid, hi)
  {
    if mid < hi {
      SumSplit(p, lo, mid, hi - 1);
    }
  }

  /** First bin of the region of bin `i`. */
  function Offset(n: nat, i: nat): (o: nat)
    requires n > 0
    ensures o <= i < o + n
  {
    DivModSplit(i, n);
    (i / n) * n
  }

  /** Regions are complete, and a window of 2r bins fits into a region without its last bin. */
  predicate Shape(p: seq<real>, n: nat, r: nat) {
    n > 0 && r >= 1 && 2 * r <= n - 1 && |p| % n == 0
  }

  lemma RegionInside(p: seq<real>, n: nat, i: nat)
    requires n > 0 && |p| % n == 0 && i < |p|
    ensures Offset(n, i) + n <= |p|
  {
    DivModSplit(|p|, n);
    RowBound(i, |p| / n, n);
    MulMono(i / n + 1, |p| / n, n);
    assert (i / n + 1) * n == (i / n) * n + n;
  }

  // ---- the baseline as it should be -------------------------------------------------

  /** First bin, in its region, of the window of bin `idx`: centred on the bin, but
      moved inside the region. */
  function WindowStart(n: nat, r: nat, idx: nat): nat
    requires r >= 1 && 2 * r <= n - 1
  {
    if idx < r then 0 else if idx - r > n - 1 - 2 * r then n - 1 - 2 * r else idx - r
  }

  function WindowLo(n: nat, r: nat, i: nat): (lo: nat)
    requires r >= 1 && 2 * r <= n - 1
    ensures Offset(n, i) <= lo && lo + 2 * r <= Offset(n, i) + n - 1
  {
    Offset(n, i) + WindowStart(n, r, i - Offset(n, i))
  }

  /** Mean power of the window of bin `i`. */
  function WindowMean(p: seq<real>, n: nat, r: nat, i: nat): real
    requires Shape(p, n, r) && i < |p|
  {
    RegionInside(p, n, i);
    Sum(p, WindowLo(n, r, i), WindowLo(n, r, i) + 2 * r) / (2 * r) as real
  }

  // ---- the baseline as it is computed ------------------------------------------------

  /** exclusive_scan_by_key: sum of the powers before each bin in its region. */
  function Scan(p: seq<real>, n: nat): (s: seq<real>)
    requires n > 0
    ensures |s| == |p|
    ensures forall i :: 0 <= i < |p| ==> s[i] == Sum(p, Offset(n, i), i)
  {
    seq(|p|, i requires 0 <= i < |p| => Sum(p, Offset(n, i), i))
  }

  /** running_mean_by_region, applied to the scan. */
  function RunningMean(scanned: seq<real>, n: nat, r: nat, i: nat): real
    requires Shape(scanned, n, r) && i < |scanned|
  {
    RegionInside(scanned, n, i);
    DivModSplit(i, n);
    var region := i / n;
    var offset := region * n;
    var idx := i % n;
    var sum :=
      if idx < r then scanned[2 * r + offset] - scanned[0 + offset]
      else if idx > n - 1 - r then scanned[n - 1 + offset] - scanned[n - 1 - 2 * r + offset]
      else scanned[idx + r + offset] - scanned[idx - r + offset];
    sum / (2 * r) as real
  }

  lemma SameRegion(n: nat, o: nat, i: nat)
    requires n > 0 && o % n == 0 && o <= i < o + n
    ensures Offset(n, i) == o
  {
    DivModSplit(o, n);
    DivIs(i, o / n, n);
  }

  lemma OffsetAligned(n: nat, i: nat)
    requires n > 0
    ensures Offset(n, i) % n == 0
    ensures Offset(n, i) == (i / n) * n
    ensures i - Offset(n, i) == i % n
  {
    DivModSplit(i, n);
    DivModUnique(i / n, 0, n);
  }

  /** A difference of two scan values of one region is the sum between them. */
  lemma ScanDifference(p: seq<real>, n: nat, o: nat, a: nat, b: nat)
    requires n > 0 && o % n == 0 && o + n <= |p|
    requires a <= b < n
    ensures Scan(p, n)[o + b] - Scan(p, n)[o + a] == Sum(p, o + a, o + b)
  {
    SameRegion(n, o, o + a);
    SameRegion(n, o, o + b);
    SumSplit(p, o, o + a, o + b);
  }

  /** The O(1) difference of scan values is the mean of the clamped window. */
  lemma BaselineRefinement(p: seq<real>, n: nat, r: nat, i: nat)
    requires Shape(p, n, r) && i < |p|
    ensures RunningMean(Scan(p, n), n, r, i) == WindowMean(p, n, r, i)
  {
    var o, idx := Offset(n, i), i % n;
    OffsetAligned(n, i);
    RegionInside(p, n, i);
    var w := WindowStart(n, r, idx);
    ScanDifference(p, n, o, w, w + 2 * r);
  }

  /** The window lies in the bin's own region and never reaches its last bin; it
      holds the bin itself unless that is the last one. */
  lemma WindowInRegion(n: nat, r: nat, i: nat)
    requires r >= 1 && 2 * r <= n - 1
    ensures var lo := WindowLo(n, r, i);
            && (forall k :: lo <= k < lo + 2 * r ==> Offset(n, k) == Offset(n, i) && k != Offset(n, i) + n - 1)
            && (lo <= i < lo + 2 * r <==> i != Offset(n, i) + n - 1)
  {
    var lo, o := WindowLo(n, r, i), Offset(n, i);
    OffsetAligned(n, i);
    forall k | lo <= k < lo + 2 * r ensures Offset(n, k) == o && k != o + n - 1 {
      SameRegion(n, o, k);
    }
  }

  /** The baseline lies between the least and the greatest power of the window. */
  lemma BaselineBetween(p: seq<real>, n: nat, r: nat, i: nat, least: real, most: real)
    requires Shape(p, n, r) && i < |p|
    requires WindowLo(n, r, i) + 2 * r <= |p|
    requires forall k :: WindowLo(n, r, i) <= k < WindowLo(n, r, i) + 2 * r ==> least <= p[k] <= most
    ensures least <= WindowMean(p, n, r, i) <= most
  {
    var lo := WindowLo(n, r, i);
    SumBetween(p, lo, lo + 2 * r, least, most);
    MeanBetween(Sum(p, lo, lo + 2 * r), (2 * r) as real, least, most);
  }

  lemma MeanBetween(s: real, m: real, least: real, most: real)
    requires m > 0.0 && m * least <= s <= m * most
    ensures least <= s / m <= most
  {
    var q := s / m;
    assert q * m == s;
    if q < least {
      MulLess(q, least, m);
    }
    if most < q {
      MulLess(most, q, m);
    }
  }

  lemma MulLess(x: real, y: real, m: real)
    requires x < y && m > 0.0
    ensures x * m < y * m
  {
  }

  lemma {:induction false} SumBetween(p: seq<real>, lo: nat, hi: nat, least: real, most: real)
    requires lo <= hi <= |p|
    requires forall k :: lo <= k < hi ==> least <= p[k] <= most
    ensures (hi - lo) as real * least <= Sum(p, lo, hi) <= (hi - lo) as real * most
  {
    if lo < hi {
      SumBetween(p, lo, hi - 1, least, most);
      OneMore((hi - 1 - lo) as real, least);
      OneMore((hi - 1 - lo) as real, most);
      assert (hi - lo) as real == (hi - 1 - lo) as real + 1.0;
    }
  }

  lemma OneMore(x: real, y: real)
    ensures (x + 1.0) * y == x * y + y
  {
  }

  // ---- hits ------------------------------------------------------------------------

  /** The quotient of two floating-point numbers. */
  datatype Ratio = Finite(value: real) | Infinite(positive: bool) | NotANumber

  function Divide(x: real, y: real): Ratio {
    if y != 0.0 then Finite(x / y)
    else if x > 0.0 then Infinite(true)
    else if x < 0.0 then Infinite(false)
    else NotANumber
  }

  predicate Exceeds(q: Ratio, t: real) {
    match q
    case Finite(v) => v > t
    case Infinite(positive) => positive
    case NotANumber => false
  }

  /** Whether bin `i` is a hit. */
  predicate IsHit(p: seq<real>, n: nat, r: nat, t: real, i: nat)
    requires Shape(p, n, r) && i < |p|
  {
    Exceeds(Divide(p[i], WindowMean(p, n, r, i)), t)
  }

  /** What makes a bin a hit: more than `t` times the mean of the 2r bins around it, which
      are the first 2r of its region for a bin near the start, and the last 2r before the
      last for one near the end; if those have no power, any power of its own. */
  lemma HitMeans(p: seq<real>, n: nat, r: nat, t: real, i: nat)
    requires Shape(p, n, r) && i < |p|
    ensures var o, idx := i - i % n, i % n;
            var lo := if idx < r then o else if idx > n - 1 - r then o + n - 1 - 2 * r else i - r;
            && 0 <= lo && lo + 2 * r <= |p|
            && var s, w := Sum(p, lo, lo + 2 * r), (2 * r) as real;
            (IsHit(p, n, r, t, i) <==>
             if s > 0.0 then p[i] * w > t * s else if s < 0.0 then p[i] * w < t * s else p[i] > 0.0)
  {
    OffsetAligned(n, i);
    RegionInside(p, n, i);
    DivModSplit(i, n);
    var lo := WindowLo(n, r, i);
    var s := Sum(p, lo, lo + 2 * r);
    hide Divide, Exceeds, Sum;
    QuotientOver(p[i], s, (2 * r) as real, t);
  }

  lemma QuotientOver(x: real, s: real, w: real, t: real)
    requires w > 0.0
    ensures Exceeds(Divide(x, s / w), t) <==>
            if s > 0.0 then x * w > t * s else if s < 0.0 then x * w < t * s else x > 0.0
  {
    var m := s / w;
    assert m * w == s;
    SignOfProduct(m, w);
    if m != 0.0 {
      var q := x / m;
      assert q * m == x;
      assert Exceeds(Divide(x, m), t) <==> q > t;
      hide Divide, Exceeds;
      assert x * w == q * s by {
        assert (q * m) * w == q * (m * w);
      }
      OrderOfProducts(q, t, s);
    }
  }

  lemma SignOfProduct(m: real, w: real)
    requires w > 0.0
    ensures m > 0.0 ==> m * w > 0.0
    ensures m < 0.0 ==> m * w < 0.0
    ensures m == 0.0 ==> m * w == 0.0
  {
  }

  lemma OrderOfProducts(q: real, t: real, s: real)
    ensures s > 0.0 ==> (q > t <==> q * s > t * s)
    ensures s < 0.0 ==> (q > t <==> q * s < t * s)
  {
    if q > t {
      SignOfScaled(q, t, s);
    } else if q < t {
      SignOfScaled(t, q, s);
    }
  }

  lemma SignOfScaled(a: real, b: real, s: real)
    requires a > b
    ensures s > 0.0 ==> a * s > b * s
    ensures s < 0.0 ==> a * s < b * s
  {
    if s > 0.0 {
      MulLess(b, a, s);
    } else if s < 0.0 {
      MulLess(b, a, -s);
      assert a * -s == -(a * s) && b * -s == -(b * s);
    }
  }

  /** The hits among the bins below `k`, in increasing order. */
  function Hits(p: seq<real>, n: nat, r: nat, t: real, k: nat): (h: seq<nat>)
    requires Shape(p, n, r) && k <= |p|
    ensures |h| <= k
  {
    if k == 0 then []
    else Hits(p, n, r, t, k - 1) + if IsHit(p, n, r, t, k - 1) then [k - 1] else []
  }

  /** The list is sorted, without repeats, and holds exactly the hits. */
  lemma {:induction false} HitsExact(p: seq<real>, n: nat, r: nat, t: real, k: nat)
    requires Shape(p, n, r) && k <= |p|
    ensures var h := Hits(p, n, r, t, k);
            && (forall i, j :: 0 <= i < j < |h| ==> h[i] < h[j])
            && (forall b: nat :: b in h <==> b < k && IsHit(p, n, r, t, b))
  {
    hide IsHit, Shape;
    if k > 0 {
      HitsExact(p, n, r, t, k - 1);
      var front := Hits(p, n, r, t, k - 1);
      forall i | 0 <= i < |front| ensures front[i] < k - 1 {
        assert front[i] in front;
      }
    }
  }

  // ---- invariances --------------------------------------------------------------------

  function Scaled(c: real, p: seq<real>): (q: seq<real>)
    ensures |q| == |p|
  {
    seq(|p|, i requires 0 <= i < |p| => c * p[i])
  }

  lemma {:induction false} SumScaled(c: real, p: seq<real>, lo: nat, hi: nat)
    requires lo <= hi <= |p|
    ensures Sum(Scaled(c, p), lo, hi) == c * Sum(p, lo, hi)
  {
    if lo < hi {
      SumScaled(c, p, lo, hi - 1);
      Distribute(c, Sum(p, lo, hi - 1), p[hi - 1]);
    }
  }

  lemma Distribute(c: real, x: real, y: real)
    ensures c * (x + y) == c * x + c * y
  {
  }

  lemma QuotientScaled(c: real, x: real, y: real, cx: real, cy: real)
    requires c > 0.0 && cx == c * x && cy == c * y
    ensures Divide(cx, cy) == Divide(x, y)
  {
    if y != 0.0 {
      var q := x / y;
      assert q * y == x;
      assert cx == c * (q * y) == q * cy;
      assert cy != 0.0;
      DivideBack(cx, cy, q);
    } else if x > 0.0 {
      assert cx > 0.0;
    } else if x < 0.0 {
      assert cx < 0.0;
    }
  }

  lemma MeanScaled(c: real, x: real, m: real)
    requires m > 0.0
    ensures (c * x) / m == c * (x / m)
  {
    var q := x / m;
    assert q * m == x;
    assert c * x == c * (q * m) == (c * q) * m;
    DivideBack(c * x, m, c * q);
  }

  lemma DivideBack(x: real, y: real, q: real)
    requires y != 0.0 && x == q * y
    ensures x / y == q
  {
    var d := x / y;
    assert d * y == x;
    assert (d - q) * y == 0.0;
  }

  /** Multiplying all powers by a positive constant changes no hit. */
  lemma {:induction false} HitsScaleFree(c: real, p: seq<real>, n: nat, r: nat, t: real, k: nat)
    requires c > 0.0 && Shape(p, n, r) && k <= |p|
    ensures Hits(Scaled(c, p), n, r, t, k) == Hits(p, n, r, t, k)
  {
    hide IsHit, Shape;
    if k > 0 {
      HitsScaleFree(c, p, n, r, t, k - 1);
      HitScaleFree(c, p, n, r, t, k - 1);
    }
  }

  lemma HitScaleFree(c: real, p: seq<real>, n: nat, r: nat, t: real, i: nat)
    requires c > 0.0 && Shape(p, n, r) && i < |p|
    ensures IsHit(Scaled(c, p), n, r, t, i) <==> IsHit(p, n, r, t, i)
  {
    hide Divide, Exceeds, WindowMean;
    MeanScaleFree(c, p, n, r, i);
    QuotientScaled(c, p[i], WindowMean(p, n, r, i), Scaled(c, p)[i], WindowMean(Scaled(c, p), n, r, i));
  }

  lemma MeanScaleFree(c: real, p: seq<real>, n: nat, r: nat, i: nat)
    requires Shape(p, n, r) && i < |p|
    ensures WindowMean(Scaled(c, p), n, r, i) == c * WindowMean(p, n, r, i)
  {
    var lo := WindowLo(n, r, i);
    hide Sum, WindowLo;
    RegionInside(p, n, i);
    SumScaled(c, p, lo, lo + 2 * r);
    MeanScaled(c, Sum(p, lo, lo + 2 * r), (2 * r) as real);
  }

  lemma {:induction false} SumElsewhere(p: seq<real>, q: seq<real>, lo: nat, hi: nat)
    requires lo <= hi <= |p| == |q|
    requires forall k :: lo <= k < hi ==> p[k] == q[k]
    ensures Sum(p, lo, hi) == Sum(q, lo, hi)
  {
    if lo < hi {
      SumElsewhere(p, q, lo, hi - 1);
    }
  }

  /** The last bin of a region takes part in no baseline: whatever is left in it,
      no baseline and no other bin's being a hit depends on it. */
  lemma LastBinIsolated(p: seq<real>, n: nat, r: nat, t: real, last: nat, v: real, i: nat)
    requires Shape(p, n, r) && last < |p| && last % n == n - 1 && i < |p|
    ensures WindowMean(p[last := v], n, r, i) == WindowMean(p, n, r, i)
    ensures i != last ==> (IsHit(p[last := v], n, r, t, i) <==> IsHit(p, n, r, t, i))
  {
    var q, lo := p[last := v], WindowLo(n, r, i);
    RegionInside(p, n, i);
    WindowInRegion(n, r, i);
    OffsetAligned(n, last);
    assert !(lo <= last < lo + 2 * r);
    SumElsewhere(p, q, lo, lo + 2 * r);
  }
}
