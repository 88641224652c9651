/** How many hits a spectrum can have. A bin's own window takes part in its baseline, so
    hits cannot be dense: few of them make the baseline too high for one more. */
module Density {
  import opened Arith
  import opened Spectrum

  predicate NonNegative(p: seq<real>) {
    forall i :: 0 <= i < |p| ==> p[i] >= 0.0
  }

  /** Hits among the bins lo .. hi. */
  function HitCount(p: seq<real>, n: nat, r: nat, t: real, lo: nat, hi: nat): nat
    requires Shape(p, n, r) && lo <= hi <= |p|
  {
    if lo == hi then 0
    else HitCount(p, n, r, t, lo, hi - 1) + if IsHit(p, n, r, t, hi - 1) then 1 else 0
  }

  lemma {:induction false} CountSplit(p: seq<real>, n: nat, r: nat, t: real, lo: nat, mid: nat, hi: nat)
    requires Shape(p, n, r) && lo <= mid <= hi <= |p|
    ensures HitCount(p, n, r, t, lo, hi) == HitCount(p, n, r, t, lo, mid) + HitCount(p, n, r, t, mid, hi)
  {
    hide IsHit, Shape;
    if mid < hi {
      CountSplit(p, n, r, t, lo, mid, hi - 1);
    }
  }

  /** It is the length of the hit list. */
  lemma {:induction false} CountIsLength(p: seq<real>, n: nat, r: nat, t: real, k: nat)
    requires Shape(p, n, r) && k <= |p|
    ensures HitCount(p, n, r, t, 0, k) == |Hits(p, n, r, t, k)|
  {
    hide IsHit, Shape;
    if k > 0 {
      CountIsLength(p, n, r, t, k - 1);
    }
  }

  lemma {:induction false} SumNonNegative(p: seq<real>, lo: nat, hi: nat)
    requires NonNegative(p) && lo <= hi <= |p|
    ensures Sum(p, lo, hi) >= 0.0
  {
    if lo < hi {
      SumNonNegative(p, lo, hi - 1);
    }
  }

  lemma SumOfPart(p: seq<real>, lo: nat, a: nat, b: nat, hi: nat)
    requires NonNegative(p) && lo <= a <= b <= hi <= |p|
    ensures Sum(p, a, b) <= Sum(p, lo, hi)
  {
    SumSplit(p, lo, a, hi);
    SumSplit(p, a, b, hi);
    SumNonNegative(p, lo, a);
    SumNonNegative(p, b, hi);
  }

  /** A run of at most `r` bins of one region, without the region's last bin. */
  predicate Run(p: seq<real>, n: nat, r: nat, a: nat, m: nat) {
    Shape(p, n, r) && m <= r && a + m <= |p| && (m > 0 ==> a + m <= Offset(n, a) + n - 1)
  }

  /** The window of each bin of a run holds the whole run. */
  lemma WindowHoldsRun(p: seq<real>, n: nat, r: nat, a: nat, m: nat, i: nat)
    requires Run(p, n, r, a, m) && a <= i < a + m
    ensures WindowLo(n, r, i) <= a && a + m <= WindowLo(n, r, i) + 2 * r <= |p|
  {
    OffsetAligned(n, a);
    SameRegion(n, Offset(n, a), i);
    RegionInside(p, n, i);
  }

  /** The window of a bin of a run has at least the power of the run, and of the bin. */
  lemma WindowPower(p: seq<real>, n: nat, r: nat, a: nat, m: nat, i: nat) returns (s: real)
    requires Run(p, n, r, a, m) && a <= i < a + m && NonNegative(p)
    ensures WindowMean(p, n, r, i) == s / (2 * r) as real
    ensures Sum(p, a, a + m) <= s && 0.0 <= p[i] <= s
  {
    WindowHoldsRun(p, n, r, a, m, i);
    var lo := WindowLo(n, r, i);
    s := Sum(p, lo, lo + 2 * r);
    hide WindowLo, Offset;
    SumOfPart(p, lo, a, a + m, lo + 2 * r);
    SumOfPart(p, lo, i, i + 1, lo + 2 * r);
    assert Sum(p, i, i + 1) == p[i];
  }

  /** A hit of a run has more than t / 2r of the power of the whole run. */
  lemma HitTakesShare(p: seq<real>, n: nat, r: nat, t: real, a: nat, m: nat, i: nat)
    requires Run(p, n, r, a, m) && a <= i < a + m && NonNegative(p) && t > 0.0
    requires IsHit(p, n, r, t, i)
    ensures p[i] * (2 * r) as real > t * Sum(p, a, a + m)
  {
    hide WindowMean, Sum, Offset, Divide, Exceeds, NonNegative;
    var s := WindowPower(p, n, r, a, m, i);
    OverMean(p[i], s, (2 * r) as real, t);
    LessTimes(t, Sum(p, a, a + m), s);
  }

  lemma OverMean(x: real, s: real, w: real, t: real)
    requires 0.0 <= x <= s && w > 0.0 && t > 0.0
    requires Exceeds(Divide(x, s / w), t)
    ensures x * w > t * s
  {
    var mean := s / w;
    assert mean * w == s;
    if mean < 0.0 {
      NegativeTimes(mean, w);
    }
    if mean > 0.0 {
      var q := x / mean;
      assert q * mean == x;
      TimesMore(t, q, mean);
      TimesMore(t * mean, x, w);
      assert (t * mean) * w == t * (mean * w);
    }
  }

  lemma NegativeTimes(x: real, w: real)
    requires x < 0.0 && w > 0.0
    ensures x * w < 0.0
  {
  }

  lemma TimesMore(x: real, y: real, w: real)
    requires x < y && w > 0.0
    ensures x * w < y * w
  {
  }

  lemma LessTimes(t: real, x: real, y: real)
    requires x <= y && t > 0.0
    ensures t * x <= t * y
  {
  }

  lemma AddTimes(x: real, y: real, w: real)
    ensures (x + y) * w == x * w + y * w
  {
  }

  lemma ShareStep(s: real, x: real, w: real, h: real, c: real, hit: bool)
    requires s * w >= h * c && (h > 0.0 ==> s * w > h * c)
    requires x >= 0.0 && w >= 0.0 && h >= 0.0 && (hit ==> x * w > c)
    ensures hit ==> (s + x) * w > (h + 1.0) * c
    ensures !hit ==> (s + x) * w >= h * c && (h > 0.0 ==> (s + x) * w > h * c)
  {
    AddTimes(s, x, w);
    AddTimes(h, 1.0, c);
    NonNegativeTimes(x, w);
  }

  /** When every hit among some bins has more than a share of c / w, they have so many
      shares together. */
  lemma {:induction false} HitsShareOut(p: seq<real>, n: nat, r: nat, t: real, a: nat, b: nat, w: real, c: real)
    requires Shape(p, n, r) && a <= b <= |p| && NonNegative(p) && w >= 0.0
    requires forall i :: a <= i < b && IsHit(p, n, r, t, i) ==> p[i] * w > c
    ensures var h := HitCount(p, n, r, t, a, b) as real;
            Sum(p, a, b) * w >= h * c && (h > 0.0 ==> Sum(p, a, b) * w > h * c)
  {
    hide IsHit, Shape, NonNegative;
    if a < b {
      HitsShareOut(p, n, r, t, a, b - 1, w, c);
      assert p[b - 1] >= 0.0 by { PowerAt(p, b - 1); }
      ShareStep(Sum(p, a, b - 1), p[b - 1], w, HitCount(p, n, r, t, a, b - 1) as real, c, IsHit(p, n, r, t, b - 1));
    }
  }

  lemma PowerAt(p: seq<real>, i: nat)
    requires NonNegative(p) && i < |p|
    ensures p[i] >= 0.0
  {
  }

  lemma NonNegativeTimes(x: real, w: real)
    requires x >= 0.0 && w >= 0.0
    ensures x * w >= 0.0
  {
  }

  /** At most `r` consecutive bins of a region, without its last, hold no hit or fewer
      than 2r / t. */
  lemma RunBound(p: seq<real>, n: nat, r: nat, t: real, a: nat, m: nat)
    requires Run(p, n, r, a, m) && NonNegative(p) && t > 0.0
    ensures var h := HitCount(p, n, r, t, a, a + m);
            h == 0 || h as real * t < (2 * r) as real
  {
    hide HitCount, Sum, NonNegative, IsHit;
    forall i | a <= i < a + m && IsHit(p, n, r, t, i)
      ensures p[i] * (2 * r) as real > t * Sum(p, a, a + m)
    {
      HitTakesShare(p, n, r, t, a, m, i);
    }
    HitsShareOut(p, n, r, t, a, a + m, (2 * r) as real, t * Sum(p, a, a + m));
    SumNonNegative(p, a, a + m);
    ShareBound(HitCount(p, n, r, t, a, a + m) as real, t, Sum(p, a, a + m), (2 * r) as real);
  }

  lemma ShareBound(h: real, t: real, s: real, w: real)
    requires s >= 0.0 && (h > 0.0 ==> s * w > h * (t * s))
    ensures h <= 0.0 || h * t < w
  {
    assert h * (t * s) == (h * t) * s;
    if h > 0.0 && h * t >= w {
      LessTimesRight(w, h * t, s);
    }
  }

  lemma LessTimesRight(x: real, y: real, s: real)
    requires x <= y && s >= 0.0
    ensures s * x <= y * s
  {
  }

  /** No more than `q` hits can be fewer than 2r / t. */
  predicate Enough(q: nat, t: real, r: nat) {
    (q + 1) as real * t >= (2 * r) as real
  }

  /** A further run adds at most q hits. */
  lemma NextRun(p: seq<real>, n: nat, r: nat, t: real, q: nat, o: nat, y: nat, x: nat)
    requires Shape(p, n, r) && NonNegative(p) && t > 0.0 && Enough(q, t, r)
    requires o % n == 0 && o + n <= |p| && y <= x <= n - 1 && x - y <= r
    ensures HitCount(p, n, r, t, o, o + x) <= HitCount(p, n, r, t, o, o + y) + q
  {
    hide Enough, HitCount, NonNegative, Sum, IsHit;
    CountSplit(p, n, r, t, o, o + y, o + x);
    SameRegion(n, o, o + y);
    assert Run(p, n, r, o + y, x - y);
    hide Offset, Run, Shape;
    RunBound(p, n, r, t, o + y, x - y);
    FewerThan(HitCount(p, n, r, t, o + y, o + x), q, t, r);
  }

  /** `k` runs of a region together. */
  lemma {:induction false} RunsBound(p: seq<real>, n: nat, r: nat, t: real, q: nat, o: nat, k: nat, x: nat)
    requires Shape(p, n, r) && NonNegative(p) && t > 0.0 && Enough(q, t, r)
    requires o % n == 0 && o + n <= |p| && x <= n - 1 && x <= k * r
    ensures HitCount(p, n, r, t, o, o + x) <= k * q
    decreases k
  {
    hide IsHit, NonNegative, Enough;
    if k > 0 {
      var y := if x < r then 0 else x - r;
      OneLess(k, r);
      OneLess(k, q);
      RunsBound(p, n, r, t, q, o, k - 1, y);
      NextRun(p, n, r, t, q, o, y, x);
    }
  }

  lemma OneLess(k: nat, r: nat)
    requires k > 0
    ensures k * r == (k - 1) * r + r && (k - 1) * r >= 0
  {
    MulMono(0, k - 1, r);
  }

  lemma FewerThan(h: nat, q: nat, t: real, r: nat)
    requires t > 0.0 && Enough(q, t, r) && (h == 0 || h as real * t < (2 * r) as real)
    ensures h <= q
  {
    if h > q {
      LessTimes(t, (q + 1) as real, h as real);
    }
  }

  /** One spectrum: at most q hits for each of its k runs, and its last bin. */
  lemma SpectrumBound(p: seq<real>, n: nat, r: nat, t: real, q: nat, o: nat, k: nat)
    requires Shape(p, n, r) && NonNegative(p) && t > 0.0 && Enough(q, t, r)
    requires o % n == 0 && o + n <= |p| && n - 1 <= k * r
    ensures HitCount(p, n, r, t, o, o + n) <= k * q + 1
  {
    RunsBound(p, n, r, t, q, o, k, n - 1);
  }

  // ---- the three instruments -------------------------------------------------------------

  const POWER_THRESH: real := 20.0

  /** MAXGPUHITS: a tenth of the fine channels, 1 / MIN_POWER_THRESH of them. */
  function MaxGpuHits(nFine: nat): nat {
    nFine / 10
  }

  /** N_FINE_CHAN and SMOOTH_SCALE at Arecibo, Green Bank and FAST. */
  predicate Instrument(nFine: nat, smooth: nat) {
    (nFine == 131072 && smooth == 1024) || (nFine == 524288 && smooth == 1024) || (nFine == 134217728 && smooth == 8192)
  }

  /** With the instrument's own smoothing and any threshold from just below POWER_THRESH
      up, no spectrum has more hits than MAXGPUHITS. */
  lemma SpectrumFits(p: seq<real>, nFine: nat, smooth: nat, t: real, o: nat)
    requires Instrument(nFine, smooth) && Shape(p, nFine, smooth) && NonNegative(p) && t >= 19.99
    requires o % nFine == 0 && o + nFine <= |p|
    ensures HitCount(p, nFine, smooth, t, o, o + nFine) <= MaxGpuHits(nFine)
  {
    hide HitCount, Shape;
    var q, k := if smooth == 1024 then 102 else 819, nFine / smooth;
    LessTimes((q + 1) as real, 19.99, t);
    SpectrumBound(p, nFine, smooth, t, q, o, k);
  }

  /** All spectra of a call together. */
  lemma {:induction false} CallFits(p: seq<real>, nFine: nat, smooth: nat, t: real, rows: nat)
    requires Instrument(nFine, smooth) && Shape(p, nFine, smooth) && NonNegative(p) && t >= 19.99
    requires rows * nFine <= |p|
    ensures HitCount(p, nFine, smooth, t, 0, rows * nFine) <= rows * MaxGpuHits(nFine)
  {
    hide HitCount, Shape, Instrument;
    if rows > 0 {
      var o := (rows - 1) * nFine;
      MulMono(0, rows - 1, nFine);
      assert rows * nFine == o + nFine;
      assert rows * MaxGpuHits(nFine) == (rows - 1) * MaxGpuHits(nFine) + MaxGpuHits(nFine);
      CallFits(p, nFine, smooth, t, rows - 1);
      assert nFine > 0 by { InstrumentSize(nFine, smooth); }
      DivModUnique(rows - 1, 0, nFine);
      SpectrumFits(p, nFine, smooth, t, o);
      CountSplit(p, nFine, smooth, t, 0, o, o + nFine);
    } else {
      NoBins(p, nFine, smooth, t);
    }
  }

  lemma InstrumentSize(nFine: nat, smooth: nat)
    requires Instrument(nFine, smooth)
    ensures nFine > 0
  {
  }

  lemma NoBins(p: seq<real>, n: nat, r: nat, t: real)
    requires Shape(p, n, r)
    ensures HitCount(p, n, r, t, 0, 0) == 0
  {
  }

  /** So the hits of a call are at most MAXGPUHITS for each of its spectra. */
  lemma CallHits(p: seq<real>, nFine: nat, smooth: nat, t: real, rows: nat)
    requires Instrument(nFine, smooth) && Shape(p, nFine, smooth) && NonNegative(p) && t >= 19.99
    requires |p| == rows * nFine
    ensures |Hits(p, nFine, smooth, t, |p|)| <= rows * MaxGpuHits(nFine)
  {
    hide HitCount, Shape, Instrument, Hits, NonNegative;
    CallFits(p, nFine, smooth, t, rows);
    CountIsLength(p, nFine, smooth, t, |p|);
  }

  // ---- many hits ---------------------------------------------------------------------------

  /** Bin `x` of a spectrum is in a tooth: teeth are `m` bins wide, `r` bins apart, and the
      first begins at bin `r`. */
  predicate InTooth(r: nat, m: nat, x: nat)
    requires m + r > 0
  {
    x >= r && (x - r) % (m + r) < m
  }

  /** Spectra of power 1 in their teeth and 0 elsewhere. */
  function Comb(n: nat, r: nat, m: nat, rows: nat): (p: seq<real>)
    requires n > 0 && m + r > 0
    ensures |p| == rows * n
    ensures forall i :: 0 <= i < |p| ==> p[i] == if InTooth(r, m, i % n) then 1.0 else 0.0
    ensures NonNegative(p)
  {
    MulMono(0, rows, n);
    seq(rows * n, i requires 0 <= i < rows * n => if InTooth(r, m, i % n) then 1.0 else 0.0)
  }

  /** A comb with `teeth` whole teeth in each spectrum, all of whose windows lie inside it,
      and for which `t` is low enough. */
  predicate Combs(n: nat, r: nat, m: nat, rows: nat, teeth: nat, t: real) {
    && 1 <= m <= r && 2 * r <= n - 1 && r + teeth * (m + r) <= n
    && t > 0.0 && m as real * t < (2 * r) as real
  }

  lemma CombShape(n: nat, r: nat, m: nat, rows: nat, teeth: nat, t: real)
    requires Combs(n, r, m, rows, teeth, t)
    ensures Shape(Comb(n, r, m, rows), n, r)
  {
    MulMono(0, rows, n);
    DivModUnique(rows, 0, n);
  }

  /** First bin of a tooth. */
  function ToothStart(n: nat, r: nat, m: nat, row: nat, c: nat): nat {
    row * n + r + c * (m + r)
  }

  lemma ToothInside(n: nat, r: nat, m: nat, rows: nat, teeth: nat, t: real, row: nat, c: nat)
    requires Combs(n, r, m, rows, teeth, t) && row < rows && c < teeth
    ensures var a := ToothStart(n, r, m, row, c);
            && row * n + r <= a && a + m + r <= row * n + n && row * n + n <= rows * n
            && (c > 0 ==> row * n + r + m + r <= a)
  {
    MulMono(c + 1, teeth, m + r);
    assert (c + 1) * (m + r) == c * (m + r) + m + r;
    MulMono(0, c, m + r);
    MulMono(row + 1, rows, n);
    assert (row + 1) * n == row * n + n;
    if c > 0 {
      MulMono(1, c, m + r);
    }
  }

  /** Bins around the tooth that begins at bin r + s of a spectrum. */
  lemma AroundTooth(r: nat, m: nat, c: nat, s: nat, x: nat)
    requires m >= 1 && s == c * (m + r) && s <= x < s + r + m + r
    ensures InTooth(r, m, x) <==> r + s <= x < r + s + m
  {
    if x >= r + s {
      DivIs(x - r, c, m + r);
    } else if c > 0 && x >= r {
      assert (c - 1) * (m + r) == s - (m + r);
      DivIs(x - r, c - 1, m + r);
    }
  }

  /** What the comb is around a tooth. */
  lemma ToothAt(n: nat, r: nat, m: nat, rows: nat, teeth: nat, t: real, row: nat, c: nat, k: nat)
    requires Combs(n, r, m, rows, teeth, t) && row < rows && c < teeth
    requires ToothStart(n, r, m, row, c) - r <= k < ToothStart(n, r, m, row, c) + m + r
    ensures k < rows * n
    ensures var a := ToothStart(n, r, m, row, c);
            Comb(n, r, m, rows)[k] == if a <= k < a + m then 1.0 else 0.0
  {
    ToothInside(n, r, m, rows, teeth, t, row, c);
    var o, s := row * n, c * (m + r);
    assert ToothStart(n, r, m, row, c) == o + r + s;
    hide Comb, Combs, ToothStart, InTooth;
    MulMono(0, row, n);
    MulMono(0, c, m + r);
    DivIs(k, row, n);
    AroundTooth(r, m, c, s, k - o);
  }

  /** A window around a bin of a tooth reaches no other tooth. */
  lemma ToothSum(n: nat, r: nat, m: nat, rows: nat, teeth: nat, t: real, row: nat, c: nat, i: nat)
    requires Combs(n, r, m, rows, teeth, t) && row < rows && c < teeth
    requires ToothStart(n, r, m, row, c) <= i < ToothStart(n, r, m, row, c) + m
    ensures r <= i && i + r <= rows * n
    ensures Sum(Comb(n, r, m, rows), i - r, i + r) == m as real
  {
    var p, a := Comb(n, r, m, rows), ToothStart(n, r, m, row, c);
    ToothInside(n, r, m, rows, teeth, t, row, c);
    MulMono(0, row, n);
    assert m <= r;
    hide Comb, Combs, ToothStart, Sum, InTooth, NonNegative;
    forall k | i - r <= k < i + r ensures p[k] == if a <= k < a + m then 1.0 else 0.0 {
      ToothAt(n, r, m, rows, teeth, t, row, c, k);
    }
    PulseSum(p, i - r, a, m, i + r);
  }

  lemma PulseSum(p: seq<real>, lo: nat, a: nat, m: nat, hi: nat)
    requires lo <= a && a + m <= hi <= |p|
    requires forall k :: lo <= k < hi ==> p[k] == if a <= k < a + m then 1.0 else 0.0
    ensures Sum(p, lo, hi) == m as real
  {
    hide Sum;
    SumConstant(p, lo, a, 0.0);
    SumConstant(p, a, a + m, 1.0);
    SumConstant(p, a + m, hi, 0.0);
    SumSplit(p, lo, a, hi);
    SumSplit(p, a, a + m, hi);
  }

  lemma {:induction false} SumConstant(p: seq<real>, lo: nat, hi: nat, v: real)
    requires lo <= hi <= |p| && forall i :: lo <= i < hi ==> p[i] == v
    ensures Sum(p, lo, hi) == (hi - lo) as real * v
  {
    if lo < hi {
      SumConstant(p, lo, hi - 1, v);
      AddTimes((hi - 1 - lo) as real, 1.0, v);
    }
  }

  lemma OverThreshold(p: seq<real>, n: nat, r: nat, t: real, i: nat, m: real)
    requires Shape(p, n, r) && i < |p| && WindowLo(n, r, i) == i - r && i + r <= |p|
    requires p[i] == 1.0 && m > 0.0 && Sum(p, i - r, i + r) == m && m * t < (2 * r) as real
    ensures IsHit(p, n, r, t, i)
  {
    hide WindowLo, Sum, Offset, Divide, Exceeds;
    UnitOver(m, (2 * r) as real, t);
  }

  /** So all of a tooth is hits. */
  lemma ToothHits(n: nat, r: nat, m: nat, rows: nat, teeth: nat, t: real, row: nat, c: nat, i: nat)
    requires Combs(n, r, m, rows, teeth, t) && row < rows && c < teeth
    requires ToothStart(n, r, m, row, c) <= i < ToothStart(n, r, m, row, c) + m
    ensures Shape(Comb(n, r, m, rows), n, r) && i < rows * n
    ensures IsHit(Comb(n, r, m, rows), n, r, t, i)
  {
    hide *;
    CombShape(n, r, m, rows, teeth, t);
    ToothInside(n, r, m, rows, teeth, t, row, c);
    ToothCentred(n, r, m, rows, teeth, t, row, c, i);
    ToothAt(n, r, m, rows, teeth, t, row, c, i);
    ToothSum(n, r, m, rows, teeth, t, row, c, i);
    LowEnough(n, r, m, rows, teeth, t);
    OverThreshold(Comb(n, r, m, rows), n, r, t, i, m as real);
  }

  lemma LowEnough(n: nat, r: nat, m: nat, rows: nat, teeth: nat, t: real)
    requires Combs(n, r, m, rows, teeth, t)
    ensures 0 < m && (m as real) * t < (2 * r) as real
  {
  }

  lemma ToothCentred(n: nat, r: nat, m: nat, rows: nat, teeth: nat, t: real, row: nat, c: nat, i: nat)
    requires Combs(n, r, m, rows, teeth, t) && row < rows && c < teeth
    requires ToothStart(n, r, m, row, c) <= i < ToothStart(n, r, m, row, c) + m
    ensures WindowLo(n, r, i) == i - r
  {
    ToothInside(n, r, m, rows, teeth, t, row, c);
    MulMono(0, row, n);
    DivModUnique(row, 0, n);
    hide ToothStart;
    CentredWindow(n, r, row * n, i);
  }

  lemma CentredWindow(n: nat, r: nat, o: nat, i: nat)
    requires r >= 1 && 2 * r <= n - 1 && o % n == 0 && o + r <= i && i + r <= o + n - 1
    ensures WindowLo(n, r, i) == i - r
  {
    SameRegion(n, o, i);
  }

  lemma UnitOver(m: real, w: real, t: real)
    requires m > 0.0 && w > 0.0 && m * t < w
    ensures Exceeds(Divide(1.0, m / w), t)
  {
    var mean := m / w;
    assert mean * w == m;
    assert mean > 0.0 by {
      if mean <= 0.0 {
        LessTimes(w, mean, 0.0);
      }
    }
    var q := 1.0 / mean;
    assert q * mean == 1.0;
    assert q * m == w by {
      assert q * m == q * (mean * w) == (q * mean) * w;
    }
    if q <= t {
      LessTimes(m, q, t);
    }
  }

  lemma {:induction false} AllHits(p: seq<real>, n: nat, r: nat, t: real, lo: nat, hi: nat)
    requires Shape(p, n, r) && lo <= hi <= |p| && forall i :: lo <= i < hi ==> IsHit(p, n, r, t, i)
    ensures HitCount(p, n, r, t, lo, hi) == hi - lo
  {
    hide IsHit, Shape;
    if lo < hi {
      AllHits(p, n, r, t, lo, hi - 1);
    }
  }

  /** The hits of the first `c` teeth of a spectrum. */
  lemma {:induction false} TeethCount(n: nat, r: nat, m: nat, rows: nat, teeth: nat, t: real, row: nat, c: nat)
    requires Combs(n, r, m, rows, teeth, t) && row < rows && c <= teeth
    ensures Shape(Comb(n, r, m, rows), n, r)
    ensures 0 <= row * n <= ToothStart(n, r, m, row, c) <= row * n + n <= rows * n
    ensures HitCount(Comb(n, r, m, rows), n, r, t, row * n, ToothStart(n, r, m, row, c)) >= c * m
    decreases c
  {
    hide IsHit, HitCount, Comb, Shape;
    var p, o := Comb(n, r, m, rows), row * n;
    CombShape(n, r, m, rows, teeth, t);
    MulMono(0, row, n);
    MulMono(row + 1, rows, n);
    assert (row + 1) * n == row * n + n;
    MulMono(c, teeth, m + r);
    MulMono(0, c, m + r);
    if c > 0 {
      var a := ToothStart(n, r, m, row, c - 1);
      ToothInside(n, r, m, rows, teeth, t, row, c - 1);
      TeethCount(n, r, m, rows, teeth, t, row, c - 1);
      assert ToothStart(n, r, m, row, c) == a + m + r by {
        assert (c - 1) * (m + r) == c * (m + r) - (m + r);
      }
      assert c * m == (c - 1) * m + m;
      hide ToothStart, Combs;
      forall i | a <= i < a + m ensures IsHit(p, n, r, t, i) {
        assert a == ToothStart(n, r, m, row, c - 1);
        ToothHits(n, r, m, rows, teeth, t, row, c - 1, i);
      }
      AllHits(p, n, r, t, a, a + m);
      CountSplit(p, n, r, t, o, a, a + m);
      CountSplit(p, n, r, t, o, a + m, a + m + r);
    }
  }

  /** The hits of the first `k` spectra of a comb. */
  lemma {:induction false} CombCount(n: nat, r: nat, m: nat, rows: nat, teeth: nat, t: real, k: nat)
    requires Combs(n, r, m, rows, teeth, t) && k <= rows
    ensures Shape(Comb(n, r, m, rows), n, r) && 0 <= k * n <= rows * n
    ensures HitCount(Comb(n, r, m, rows), n, r, t, 0, k * n) >= k * (teeth * m)
  {
    hide IsHit, HitCount, Comb, Shape;
    var p := Comb(n, r, m, rows);
    CombShape(n, r, m, rows, teeth, t);
    MulMono(0, k, n);
    MulMono(k, rows, n);
    if k > 0 {
      var o := (k - 1) * n;
      assert k * n == o + n;
      assert k * (teeth * m) == (k - 1) * (teeth * m) + teeth * m;
      CombCount(n, r, m, rows, teeth, t, k - 1);
      TeethCount(n, r, m, rows, teeth, t, k - 1, teeth);
      CountSplit(p, n, r, t, 0, o, k * n);
      CountSplit(p, n, r, t, o, ToothStart(n, r, m, k - 1, teeth), k * n);
    }
  }

  /** At every instrument, with any threshold up to 17.8, a spectrum can have more hits than
      MAXGPUHITS; the 10 of MIN_POWER_THRESH, which MAXGPUHITS is computed from, is such a
      threshold. */
  lemma LowThresholdOverflows(nFine: nat, smooth: nat, t: real) returns (p: seq<real>)
    requires Instrument(nFine, smooth) && 0.0 < t <= 17.8
    ensures |p| == nFine && Shape(p, nFine, smooth) && NonNegative(p)
    ensures HitCount(p, nFine, smooth, t, 0, nFine) > MaxGpuHits(nFine)
  {
    hide HitCount, Comb, Shape;
    var m := if smooth == 1024 then 115 else 911;
    var teeth := if nFine == 131072 then 114 else if nFine == 524288 then 459 else 14743;
    LessTimes(m as real, t, 17.8);
    p := Comb(nFine, smooth, m, 1);
    CombCount(nFine, smooth, m, 1, teeth, t, 1);
  }

  // ---- the hit arrays of a block --------------------------------------------------------------

  /** Hits a call hands over: all of them, but at most `maxhits`. */
  function HandedOver(p: seq<real>, n: nat, r: nat, t: real, maxhits: nat): nat
    requires Shape(p, n, r)
  {
    var found := |Hits(p, n, r, t, |p|)|;
    if found > maxhits then maxhits else found
  }

  /** Whatever the powers of its `rows` spectra, a call's hits fit the arrays of a block,
      which have MAXGPUHITS members for each beam or sub-spectrum. */
  ghost predicate ArraysSuffice(nFine: nat, smooth: nat, t: real, rows: nat, maxhits: nat) {
    forall p: seq<real> :: Shape(p, nFine, smooth) && NonNegative(p) && |p| == rows * nFine ==>
                             HandedOver(p, nFine, smooth, t, maxhits) <= MaxGpuHits(nFine)
  }

  /** At POWER_THRESH they do exactly if at most MAXGPUHITS hits are asked for, as the
      MAXHITS of the program are, or there is one spectrum a call, as at FAST. */
  lemma HitArraysFit(nFine: nat, smooth: nat, rows: nat, maxhits: nat)
    requires Instrument(nFine, smooth)
    ensures ArraysSuffice(nFine, smooth, POWER_THRESH, rows, maxhits) <==> maxhits <= MaxGpuHits(nFine) || rows <= 1
  {
    hide Hits, Shape, NonNegative;
    if maxhits <= MaxGpuHits(nFine) || rows <= 1 {
      forall p: seq<real> | Shape(p, nFine, smooth) && NonNegative(p) && |p| == rows * nFine
        ensures HandedOver(p, nFine, smooth, POWER_THRESH, maxhits) <= MaxGpuHits(nFine)
      {
        CallHits(p, nFine, smooth, POWER_THRESH, rows);
        if rows <= 1 {
          MulMono(rows, 1, MaxGpuHits(nFine));
        }
      }
    } else {
      var p := TwoRowsOverflow(nFine, smooth, rows);
      assert HandedOver(p, nFine, smooth, POWER_THRESH, maxhits) > MaxGpuHits(nFine);
    }
  }

  lemma TwoRowsOverflow(nFine: nat, smooth: nat, rows: nat) returns (p: seq<real>)
    requires Instrument(nFine, smooth) && rows >= 2
    ensures |p| == rows * nFine && Shape(p, nFine, smooth) && NonNegative(p)
    ensures |Hits(p, nFine, smooth, POWER_THRESH, |p|)| > MaxGpuHits(nFine)
  {
    hide HitCount, Comb, Shape, Hits;
    var m := if smooth == 1024 then 102 else 819;
    var teeth := if nFine == 131072 then 115 else if nFine == 524288 then 464 else 14893;
    p := Comb(nFine, smooth, m, rows);
    CombCount(nFine, smooth, m, rows, teeth, POWER_THRESH, rows);
    CountIsLength(p, nFine, smooth, POWER_THRESH, |p|);
    MulMono(2, rows, teeth * m);
  }
}
