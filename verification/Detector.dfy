/** Detection on the device: the vectors of s6GPU.cu and the steps that fill them, from the
    FFT output to the labelled hits of one beam or sub-spectrum. */
module Detector {
  import opened Arith
  import opened Spectrum
  import opened Labels

  datatype Complex = Complex(re: real, im: real)

  function Power(z: Complex): (x: real)
    ensures x >= 0.0
  {
    z.re * z.re + z.im * z.im
  }

  /** The product of two complex numbers. */
  function Times(a: Complex, b: Complex): Complex {
    Complex(a.re * b.re - a.im * b.im, a.re * b.im + a.im * b.re)
  }

  /** The power is the square of the absolute value: that of a real number is its square,
      that of a product the product of the powers, and only zero has none. */
  lemma PowerMeans(a: Complex, b: Complex, x: real)
    ensures Power(Complex(x, 0.0)) == x * x
    ensures Power(Times(a, b)) == Power(a) * Power(b)
    ensures a != Complex(0.0, 0.0) ==> Power(a) > 0.0
  {
    ProductOfSquares(a.re, a.im, b.re, b.im);
    if a != Complex(0.0, 0.0) {
      PowerPositive(a);
    }
  }

  lemma PowerPositive(a: Complex)
    requires a != Complex(0.0, 0.0)
    ensures Power(a) > 0.0
  {
    hide Power, Product;
    PowerParts(a);
    ProductSign(a.re, a.re);
    ProductSign(a.im, a.im);
    assert a == Complex(a.re, a.im);
  }

  ghost function Product(x: real, y: real): real { x * y }

  lemma ProductSign(x: real, y: real)
    ensures x > 0.0 && y > 0.0 ==> Product(x, y) > 0.0
    ensures x < 0.0 && y < 0.0 ==> Product(x, y) > 0.0
    ensures x == 0.0 ==> Product(x, y) == 0.0
  {
  }

  lemma PowerParts(a: Complex)
    ensures Power(a) == Product(a.re, a.re) + Product(a.im, a.im)
  {
  }

  lemma ProductOfSquares(a: real, b: real, c: real, d: real)
    ensures (a * c - b * d) * (a * c - b * d) + (a * d + b * c) * (a * d + b * c) == (a * a + b * b) * (c * c + d * d)
  {
    SquareOf(a * c, -(b * d));
    SquareOf(a * d, b * c);
    assert (a * c) * (b * d) == (a * d) * (b * c);
    assert (a * c) * (a * c) == (a * a) * (c * c) && (b * d) * (b * d) == (b * b) * (d * d);
    assert (a * d) * (a * d) == (a * a) * (d * d) && (b * c) * (b * c) == (b * b) * (c * c);
  }

  lemma SquareOf(x: real, y: real)
    ensures (x + y) * (x + y) == x * x + 2.0 * (x * y) + y * y
  {
  }

  /** The powers spectroscopy has: of all FFT outputs but the last, which is left at zero. */
  function PowersOf(fft: seq<Complex>): (p: seq<real>)
    ensures |p| == |fft|
  {
    seq(|fft|, i requires 0 <= i < |fft| => if i < |fft| - 1 then Power(fft[i]) else 0.0)
  }

  /** Every FFT output multiplied by one number: turned in phase and scaled. */
  function Turned(z: Complex, fft: seq<Complex>): (turned: seq<Complex>)
    ensures |turned| == |fft|
  {
    seq(|fft|, i requires 0 <= i < |fft| => Times(z, fft[i]))
  }

  lemma TurnedPowers(z: Complex, fft: seq<Complex>)
    ensures PowersOf(Turned(z, fft)) == Scaled(Power(z), PowersOf(fft))
  {
    hide Power, Times;
    forall i | 0 <= i < |fft| ensures PowersOf(Turned(z, fft))[i] == Scaled(Power(z), PowersOf(fft))[i] {
      PowerMeans(z, fft[i], 0.0);
      assert Turned(z, fft)[i] == Times(z, fft[i]);
      assert Scaled(Power(z), PowersOf(fft))[i] == Power(z) * PowersOf(fft)[i];
      assert Power(z) * 0.0 == 0.0;
    }
  }

  /** The power vector: the powers of all FFT outputs but the last, then whatever the
      vector held before. */
  ghost predicate Powers(fft: seq<Complex>, was: seq<real>, now: seq<real>) {
    && |now| == |was|
    && forall i :: 0 <= i < |now| ==> now[i] == if i < |fft| - 1 then Power(fft[i]) else was[i]
  }

  /** Indices over threshold among the first `k` of a vector of quotients. */
  function Over(q: seq<Ratio>, t: real, k: nat): (h: seq<nat>)
    requires k <= |q|
    ensures |h| <= k
    ensures forall i :: 0 <= i < |h| ==> h[i] < k
  {
    if k == 0 then []
    else Over(q, t, k - 1) + if Exceeds(q[k - 1], t) then [k - 1] else []
  }

  function Truncated<T>(s: seq<T>, most: nat): (r: seq<T>)
    ensures |r| == (if |s| > most then most else |s|) && r <= s
  {
    if |s| > most then s[..most] else s
  }

  function Gathered(indices: seq<nat>, v: seq<real>): (g: seq<real>)
    requires forall j :: 0 <= j < |indices| ==> indices[j] < |v|
    ensures |g| == |indices|
    ensures forall j :: 0 <= j < |g| ==> g[j] == v[indices[j]]
  {
    seq(|indices|, j requires 0 <= j < |indices| => v[indices[j]])
  }

  /** Mean powers of the spectra of a vector. */
  predicate RowMeans(p: seq<real>, n: nat, rows: nat, means: seq<real>)
    requires n > 0 && rows * n <= |p|
  {
    && |means| == rows
    && forall x: nat :: x < rows ==> (CellBound(x, n - 1, rows, n); means[x] == Sum(p, x * n, x * n + n) / n as real)
  }

  function Total(v: seq<real>): real {
    if v == [] then 0.0 else Total(v[..|v| - 1]) + v[|v| - 1]
  }

  /** Each mean, times the length of a spectrum, is the power of its own spectrum ... */
  lemma MeanOfSpectrum(p: seq<real>, n: nat, rows: nat, means: seq<real>, x: nat)
    requires n > 0 && rows * n <= |p| && RowMeans(p, n, rows, means) && x < rows
    ensures |means| == rows && 0 <= x * n && x * n + n <= |p|
    ensures means[x] * n as real == Sum(p, x * n, x * n + n)
  {
    CellBound(x, n - 1, rows, n);
    MeanTimes(Sum(p, x * n, x * n + n), n as real);
  }

  /** ... and so together they are all the power there is. */
  lemma {:induction false} MeansConserve(p: seq<real>, n: nat, rows: nat, means: seq<real>)
    requires n > 0 && 0 <= rows * n <= |p| && RowMeans(p, n, rows, means)
    ensures Total(means) * n as real == Sum(p, 0, rows * n)
    decreases rows
  {
    hide RowMeans, Sum;
    if rows > 0 {
      var o := (rows - 1) * n;
      MulMono(0, rows - 1, n);
      assert o + n == rows * n;
      MeansPrefix(p, n, rows, means);
      MeansConserve(p, n, rows - 1, means[..rows - 1]);
      MeanOfSpectrum(p, n, rows, means, rows - 1);
      SumSplit(p, 0, o, o + n);
      TimesSum(Total(means[..rows - 1]), means[rows - 1], n as real);
    } else {
      NoPower(p, n, means);
    }
  }

  lemma NoPower(p: seq<real>, n: nat, means: seq<real>)
    requires n > 0 && RowMeans(p, n, 0, means)
    ensures Total(means) * n as real == Sum(p, 0, 0)
  {
  }

  lemma MeansPrefix(p: seq<real>, n: nat, rows: nat, means: seq<real>)
    requires n > 0 && rows > 0 && 0 <= rows * n <= |p| && RowMeans(p, n, rows, means)
    ensures 0 <= (rows - 1) * n <= |p| && |means| == rows
    ensures RowMeans(p, n, rows - 1, means[..rows - 1])
  {
    MulMono(0, rows - 1, n);
    MulMono(rows - 1, rows, n);
    forall x: nat | x < rows - 1
      ensures (CellBound(x, n - 1, rows - 1, n); means[..rows - 1][x] == Sum(p, x * n, x * n + n) / n as real)
    {
      CellBound(x, n - 1, rows, n);
      assert means[x] == Sum(p, x * n, x * n + n) / n as real;
    }
  }

  lemma TimesSum(x: real, y: real, n: real)
    ensures (x + y) * n == x * n + y * n
  {
  }

  lemma MeanTimes(s: real, n: real)
    requires n != 0.0
    ensures (s / n) * n == s
  {
  }

  lemma KeyStep(n: nat, i: nat)
    requires n > 0 && i > 0
    ensures i / n == (i - 1) / n ==> Offset(n, i) == Offset(n, i - 1)
    ensures i / n != (i - 1) / n ==> Offset(n, i) == i
  {
    DivModSplit(i, n);
    DivModSplit(i - 1, n);
    OffsetAligned(n, i);
    OffsetAligned(n, i - 1);
    if Offset(n, i) < i {
      SameRegion(n, Offset(n, i), i - 1);
      SameQuotient(i / n, (i - 1) / n, n);
    }
  }

  lemma SameQuotient(a: nat, b: nat, n: nat)
    requires n > 0 && a * n == b * n
    ensures a == b
  {
    DivModUnique(a, 0, n);
    DivModUnique(b, 0, n);
  }

  lemma FirstKey(n: nat)
    requires n > 0
    ensures Offset(n, 0) == 0
  {
    SameRegion(n, 0, 0);
  }

  /** Thresholding the quotients finds the hits. */
  lemma {:induction false} OverIsHits(p: seq<real>, n: nat, r: nat, t: real, q: seq<Ratio>, k: nat)
    requires Shape(p, n, r) && |q| == |p| && k <= |p|
    requires forall i :: 0 <= i < |p| ==> q[i] == Divide(p[i], WindowMean(p, n, r, i))
    ensures Over(q, t, k) == Hits(p, n, r, t, k)
  {
    hide Shape, WindowMean, Divide, Exceeds;
    if k > 0 {
      OverIsHits(p, n, r, t, q, k - 1);
    }
  }

  /** thrust::gather. */
  method Gather(indices: seq<nat>, v: array<real>) returns (g: seq<real>)
    requires forall j :: 0 <= j < |indices| ==> indices[j] < v.Length
    ensures g == Gathered(indices, v[..])
  {
    g := [];
    for j := 0 to |indices|
      invariant |g| == j && forall k :: 0 <= k < j ==> g[k] == v[indices[k]]
    {
      g := g + [v[indices[j]]];
    }
  }

  class DeviceVectors {
    const powspec: array<real>
    const scanned: array<real>
    const baseline: array<real>
    const normalised: array<Ratio>
    var hitIndices: seq<nat>
    var hitPowers: seq<real>
    var hitBaselines: seq<real>

    ghost predicate Valid() {
      && scanned.Length == baseline.Length == normalised.Length == powspec.Length
      && powspec != scanned && powspec != baseline && scanned != baseline
    }

    constructor (nElement: nat)
      ensures Valid() && powspec.Length == nElement
      ensures forall i :: 0 <= i < nElement ==> powspec[i] == 0.0
      ensures fresh(powspec) && fresh(scanned) && fresh(baseline) && fresh(normalised)
    {
      powspec := new real[nElement](i => 0.0);
      scanned := new real[nElement](i => 0.0);
      baseline := new real[nElement](i => 0.0);
      normalised := new Ratio[nElement](i => Finite(0.0));
      hitIndices, hitPowers, hitBaselines := [], [], [];
    }

    /** The powers of the FFT outputs, but for the last. */
    method ComputePowerSpectrum(fft: seq<Complex>)
      requires Valid() && 0 < |fft| <= powspec.Length + 1
      modifies powspec
      ensures Powers(fft, old(powspec[..]), powspec[..])
    {
      for i := 0 to |fft| - 1
        invariant forall j :: 0 <= j < powspec.Length ==> powspec[j] == if j < i then Power(fft[j]) else old(powspec[j])
      {
        powspec[i] := Power(fft[i]);
      }
    }

    /** Exclusive scan by region, then the running mean: every baseline is the mean of
        the bin's window. */
    method ComputeBaseline(n: nat, r: nat)
      requires Valid() && Shape(powspec[..], n, r)
      modifies scanned, baseline
      ensures scanned[..] == Scan(powspec[..], n)
      ensures forall i :: 0 <= i < baseline.Length ==> baseline[i] == WindowMean(powspec[..], n, r, i)
    {
      ScanByRegion(n);
      assert |scanned[..]| == |powspec[..]|;
      for i := 0 to baseline.Length
        invariant scanned[..] == Scan(powspec[..], n)
        invariant forall j :: 0 <= j < i ==> baseline[j] == WindowMean(powspec[..], n, r, j)
      {
        BaselineRefinement(powspec[..], n, r, i);
        baseline[i] := RunningMean(scanned[..], n, r, i);
      }
    }

    method ScanByRegion(n: nat)
      requires Valid() && n > 0
      modifies scanned
      ensures scanned[..] == Scan(powspec[..], n)
    {
      ghost var p := powspec[..];
      var total := 0.0;
      FirstKey(n);
      for i := 0 to powspec.Length
        invariant forall j :: 0 <= j < i ==> scanned[j] == Sum(p, Offset(n, j), j)
        invariant i > 0 ==> total == Sum(p, Offset(n, i - 1), i)
      {
        if i > 0 {
          KeyStep(n, i);
        }
        if i == 0 || i / n != (i - 1) / n {
          total := 0.0;
        }
        scanned[i] := total;
        total := total + powspec[i];
      }
    }

    /** Power over baseline, bin by bin. */
    method NormalizePowerSpectrum()
      requires Valid()
      modifies normalised
      ensures forall i :: 0 <= i < normalised.Length ==> normalised[i] == Divide(powspec[i], baseline[i])
    {
      for i := 0 to powspec.Length
        invariant forall j :: 0 <= j < i ==> normalised[j] == Divide(powspec[j], baseline[j])
      {
        normalised[i] := Divide(powspec[i], baseline[i]);
      }
    }

    /** The first indices over threshold, at most `maxhits`, with their powers and baselines. */
    method FindHits(maxhits: nat, t: real) returns (nhits: nat)
      requires Valid()
      modifies `hitIndices, `hitPowers, `hitBaselines
      ensures hitIndices == Truncated(Over(normalised[..], t, normalised.Length), maxhits)
      ensures nhits == |hitIndices|
      ensures forall j :: 0 <= j < nhits ==> hitIndices[j] < powspec.Length
      ensures hitPowers == Gathered(hitIndices, powspec[..])
      ensures hitBaselines == Gathered(hitIndices, baseline[..])
    {
      hitIndices := [];
      for i := 0 to normalised.Length
        invariant hitIndices == Over(normalised[..], t, i)
      {
        if Exceeds(normalised[i], t) {
          hitIndices := hitIndices + [i];
        }
      }
      nhits := |hitIndices|;
      nhits := if nhits > maxhits then maxhits else nhits;
      hitIndices := hitIndices[..nhits];
      hitPowers := Gather(hitIndices, powspec);
      hitBaselines := Gather(hitIndices, baseline);
    }

    /** The mean power of each spectrum. */
    method ReducePowerSpectra(rows: nat, n: nat) returns (sums: seq<real>)
      requires Valid() && n > 0 && rows * n == powspec.Length
      ensures RowMeans(powspec[..], n, rows, sums)
    {
      ghost var p := powspec[..];
      sums := [];
      for x := 0 to rows
        invariant |sums| == x
        invariant forall y: nat :: y < x ==> (CellBound(y, n - 1, rows, n); sums[y] == Sum(p, y * n, y * n + n))
      {
        CellBound(x, n - 1, rows, n);
        var base := x * n;
        var total := 0.0;
        for i := base to base + n
          invariant total == Sum(p, base, i)
        {
          total := total + powspec[i];
        }
        sums := sums + [total];
      }
      ghost var totals := sums;
      for x := 0 to rows
        invariant |sums| == rows
        invariant forall y :: x <= y < rows ==> sums[y] == totals[y]
        invariant forall y :: 0 <= y < x ==> sums[y] == totals[y] / n as real
      {
        sums := sums[x := sums[x] / n as real];
      }
      assert RowMeans(p, n, rows, sums);
    }

    /** The means of the spectra, split into X and Y with a stride of two. */
    method ReduceCoarseChannels(chans: nat, n: nat) returns (pwrsX: seq<real>, pwrsY: seq<real>, ghost means: seq<real>)
      requires Valid() && n > 0 && (chans * 2) * n == powspec.Length && chans > 0
      ensures RowMeans(powspec[..], n, chans * 2, means)
      ensures |pwrsX| == |pwrsY| == chans
      ensures forall c :: 0 <= c < chans ==> pwrsX[c] == means[2 * c] && pwrsY[c] == means[2 * c + 1]
    {
      var sums := ReducePowerSpectra(chans * 2, n);
      pwrsX, pwrsY, means := Strided(sums, 0), Strided(sums, 1), sums;
    }
  }

  /** One labelled hit. */
  datatype Hit = Hit(power: real, baseline: real, site: Site)

  /** The hits of one call of spectroscopy: the bins over threshold, in order, at most
      `maxhits`, with power, baseline and label. */
  function Detected(o: Order, bors: nat, p: seq<real>, n: nat, r: nat, t: real, maxhits: nat): (hits: seq<Hit>)
    requires Shape(p, n, r) && ValidOrder(o)
  {
    var found := Truncated(Hits(p, n, r, t, |p|), maxhits);
    HitsExact(p, n, r, t, |p|);
    seq(|found|, i requires 0 <= i < |found| =>
      assert found[i] in Hits(p, n, r, t, |p|);
      Hit(p[found[i]], WindowMean(p, n, r, found[i]), SiteOf(o, bors, n, found[i])))
  }

  /** The bin a label names. */
  function BinOf(o: Order, bors: nat, n: nat, x: Site): nat
    requires ValidOrder(o) && FirstChan(o, bors) <= x.chan
  {
    SpectrumOf(o, bors, x.pol, x.chan) * n + x.fine
  }

  /** A hit of the list is a bin over threshold, with its own power, baseline and label. */
  ghost predicate Genuine(o: Order, bors: nat, p: seq<real>, n: nat, r: nat, t: real, h: Hit)
    requires Shape(p, n, r) && ValidOrder(o)
  {
    && FirstChan(o, bors) <= h.site.chan
    && var b := BinOf(o, bors, n, h.site);
    && b < |p| && IsHit(p, n, r, t, b)
    && h.power == p[b] && h.baseline == WindowMean(p, n, r, b) && h.site == SiteOf(o, bors, n, b)
  }

  lemma DetectedAt(o: Order, bors: nat, p: seq<real>, n: nat, r: nat, t: real, maxhits: nat, i: nat)
    requires Shape(p, n, r) && ValidOrder(o) && i < |Detected(o, bors, p, n, r, t, maxhits)|
    ensures var h, found := Detected(o, bors, p, n, r, t, maxhits)[i], Hits(p, n, r, t, |p|);
            i < |found| && Genuine(o, bors, p, n, r, t, h) && BinOf(o, bors, n, h.site) == found[i]
  {
    hide WindowMean, IsHit, SpectrumOf, SiteOf, FirstChan, ValidOrder;
    HitsExact(p, n, r, t, |p|);
    var found := Hits(p, n, r, t, |p|);
    assert found[i] in found;
    assert o.Ao? ==> 0 % 2 == 0;
    HitIndexFromSite(o, bors, n, 0, found[i]);
  }

  /** The list is exactly the first `maxhits` bins over threshold, in increasing order:
      nothing else is in it, nothing twice, and a bin over threshold is missing only
      behind `maxhits` earlier ones. */
  lemma DetectedExact(o: Order, bors: nat, p: seq<real>, n: nat, r: nat, t: real, maxhits: nat)
    requires Shape(p, n, r) && ValidOrder(o)
    ensures var hits := Detected(o, bors, p, n, r, t, maxhits);
            && |hits| <= maxhits
            && (forall i :: 0 <= i < |hits| ==> Genuine(o, bors, p, n, r, t, hits[i]))
            && (forall i, j :: 0 <= i < j < |hits| ==>
                  BinOf(o, bors, n, hits[i].site) < BinOf(o, bors, n, hits[j].site))
            && (forall b: nat :: b < |p| && IsHit(p, n, r, t, b) ==>
                  || (exists i :: 0 <= i < |hits| && BinOf(o, bors, n, hits[i].site) == b)
                  || (|hits| == maxhits && forall i :: 0 <= i < |hits| ==> BinOf(o, bors, n, hits[i].site) < b))
  {
    var hits, found := Detected(o, bors, p, n, r, t, maxhits), Hits(p, n, r, t, |p|);
    assert |hits| == |Truncated(found, maxhits)|;
    hide Detected, Genuine, BinOf, IsHit, FirstChan, ValidOrder;
    HitsExact(p, n, r, t, |p|);
    forall i | 0 <= i < |hits|
      ensures Genuine(o, bors, p, n, r, t, hits[i]) && FirstChan(o, bors) <= hits[i].site.chan
      ensures i < |found| && BinOf(o, bors, n, hits[i].site) == found[i]
    {
      DetectedAt(o, bors, p, n, r, t, maxhits, i);
      GenuineChan(o, bors, p, n, r, t, hits[i]);
    }
    forall b: nat | b < |p| && IsHit(p, n, r, t, b)
      ensures || (exists i :: 0 <= i < |hits| && BinOf(o, bors, n, hits[i].site) == b)
              || (|hits| == maxhits && forall i :: 0 <= i < |hits| ==> BinOf(o, bors, n, hits[i].site) < b)
    {
      assert b in found;
      var i :| 0 <= i < |found| && found[i] == b;
      assert i < |hits| ==> BinOf(o, bors, n, hits[i].site) == b;
    }
  }

  /** Neither the phase nor the scale of the FFT output matters to what is detected: the
      hits are the same bins, with the same labels, powers and baselines scaled alike. */
  lemma DetectedTurned(o: Order, bors: nat, z: Complex, fft: seq<Complex>, n: nat, r: nat, t: real, maxhits: nat)
    requires ValidOrder(o) && r >= 1 && 2 * r <= n - 1 && |fft| % n == 0 && z != Complex(0.0, 0.0)
    ensures Shape(PowersOf(fft), n, r) && Shape(PowersOf(Turned(z, fft)), n, r)
    ensures var now := Detected(o, bors, PowersOf(Turned(z, fft)), n, r, t, maxhits);
            var was := Detected(o, bors, PowersOf(fft), n, r, t, maxhits);
            && |now| == |was|
            && forall i :: 0 <= i < |now| ==>
                 && now[i].site == was[i].site
                 && now[i].power == Power(z) * was[i].power && now[i].baseline == Power(z) * was[i].baseline
  {
    TurnedPowers(z, fft);
    PowerMeans(z, z, 0.0);
    hide Power, PowersOf, Turned, Times;
    DetectedScaled(o, bors, Power(z), PowersOf(fft), n, r, t, maxhits);
  }

  lemma DetectedScaled(o: Order, bors: nat, c: real, p: seq<real>, n: nat, r: nat, t: real, maxhits: nat)
    requires ValidOrder(o) && Shape(p, n, r) && c > 0.0
    ensures Shape(Scaled(c, p), n, r)
    ensures var now, was := Detected(o, bors, Scaled(c, p), n, r, t, maxhits), Detected(o, bors, p, n, r, t, maxhits);
            && |now| == |was|
            && forall i :: 0 <= i < |now| ==>
                 && now[i].site == was[i].site
                 && now[i].power == c * was[i].power && now[i].baseline == c * was[i].baseline
  {
    hide *;
    ScaledShape(c, p, n, r);
    HitsScaleFree(c, p, n, r, t, |p|);
    var now, was := Detected(o, bors, Scaled(c, p), n, r, t, maxhits), Detected(o, bors, p, n, r, t, maxhits);
    DetectedLength(o, bors, p, n, r, t, maxhits);
    DetectedLength(o, bors, Scaled(c, p), n, r, t, maxhits);
    forall i | 0 <= i < |now|
      ensures && now[i].site == was[i].site
              && now[i].power == c * was[i].power && now[i].baseline == c * was[i].baseline
    {
      ScaledBin(o, bors, c, p, n, r, t, maxhits, i);
    }
  }

  lemma ScaledBin(o: Order, bors: nat, c: real, p: seq<real>, n: nat, r: nat, t: real, maxhits: nat, i: nat)
    requires ValidOrder(o) && Shape(p, n, r) && Shape(Scaled(c, p), n, r)
    requires Hits(Scaled(c, p), n, r, t, |p|) == Hits(p, n, r, t, |p|)
    requires i < |Detected(o, bors, p, n, r, t, maxhits)| && i < |Detected(o, bors, Scaled(c, p), n, r, t, maxhits)|
    ensures var now := Detected(o, bors, Scaled(c, p), n, r, t, maxhits)[i];
            var was := Detected(o, bors, p, n, r, t, maxhits)[i];
            now.site == was.site && now.power == c * was.power && now.baseline == c * was.baseline
  {
    hide Detected, WindowMean, Hits, SiteOf, ValidOrder, Shape;
    var b := DetectedBin(o, bors, p, n, r, t, maxhits, i);
    var d := DetectedBin(o, bors, Scaled(c, p), n, r, t, maxhits, i);
    MeanScaleFree(c, p, n, r, b);
  }

  lemma ScaledShape(c: real, p: seq<real>, n: nat, r: nat)
    requires Shape(p, n, r)
    ensures Shape(Scaled(c, p), n, r)
  {
  }

  lemma DetectedLength(o: Order, bors: nat, p: seq<real>, n: nat, r: nat, t: real, maxhits: nat)
    requires ValidOrder(o) && Shape(p, n, r)
    ensures |Detected(o, bors, p, n, r, t, maxhits)| == |Truncated(Hits(p, n, r, t, |p|), maxhits)|
  {
    hide Hits, Shape, SiteOf, WindowMean;
  }

  lemma DetectedBin(o: Order, bors: nat, p: seq<real>, n: nat, r: nat, t: real, maxhits: nat, i: nat) returns (b: nat)
    requires ValidOrder(o) && Shape(p, n, r) && i < |Detected(o, bors, p, n, r, t, maxhits)|
    ensures i < |Hits(p, n, r, t, |p|)| && b == Hits(p, n, r, t, |p|)[i] && b < |p| && n > 0
    ensures Detected(o, bors, p, n, r, t, maxhits)[i] == Hit(p[b], WindowMean(p, n, r, b), SiteOf(o, bors, n, b))
  {
    b := Hits(p, n, r, t, |p|)[i];
    HitsExact(p, n, r, t, |p|);
    assert b in Hits(p, n, r, t, |p|);
    hide Hits, SiteOf, WindowMean;
  }

  lemma DetectedPol(o: Order, bors: nat, p: seq<real>, n: nat, r: nat, t: real, maxhits: nat, h: Hit)
    requires Shape(p, n, r) && ValidOrder(o) && h in Detected(o, bors, p, n, r, t, maxhits)
    ensures h.site.pol < 2
  {
    hide Detected, WindowMean, IsHit, SpectrumOf, FirstChan, ValidOrder;
    var hits := Detected(o, bors, p, n, r, t, maxhits);
    var i :| 0 <= i < |hits| && hits[i] == h;
    DetectedAt(o, bors, p, n, r, t, maxhits, i);
  }

  lemma GenuineChan(o: Order, bors: nat, p: seq<real>, n: nat, r: nat, t: real, h: Hit)
    requires Shape(p, n, r) && ValidOrder(o) && Genuine(o, bors, p, n, r, t, h)
    ensures FirstChan(o, bors) <= h.site.chan
  {
  }

  /** The loop that copies hits to the output block and labels them. */
  method LabelHits(o: Order, bors: nat, n: nat, indices: seq<nat>, powers: seq<real>, baselines: seq<real>)
    returns (hits: seq<Hit>)
    requires ValidOrder(o) && n > 0 && |powers| == |baselines| == |indices|
    ensures |hits| == |indices|
    ensures forall i :: 0 <= i < |hits| ==> hits[i] == Hit(powers[i], baselines[i], SiteOf(o, bors, n, indices[i]))
  {
    hits := [];
    for i := 0 to |indices|
      invariant |hits| == i
      invariant forall j :: 0 <= j < i ==> hits[j] == Hit(powers[j], baselines[j], SiteOf(o, bors, n, indices[j]))
    {
      hits := hits + [Hit(powers[i], baselines[i], SiteOf(o, bors, n, indices[i]))];
    }
  }

  lemma DetectedIs(o: Order, bors: nat, p: seq<real>, n: nat, r: nat, t: real, maxhits: nat,
                   q: seq<Ratio>, b: seq<real>, found: seq<nat>, hits: seq<Hit>)
    requires Shape(p, n, r) && ValidOrder(o) && |q| == |b| == |p|
    requires forall i :: 0 <= i < |p| ==> b[i] == WindowMean(p, n, r, i)
    requires forall i :: 0 <= i < |p| ==> q[i] == Divide(p[i], b[i])
    requires found == Truncated(Over(q, t, |p|), maxhits)
    requires forall j :: 0 <= j < |found| ==> found[j] < |p|
    requires |hits| == |found|
    requires forall i :: 0 <= i < |hits| ==> hits[i] == Hit(p[found[i]], b[found[i]], SiteOf(o, bors, n, found[i]))
    ensures hits == Detected(o, bors, p, n, r, t, maxhits)
  {
    hide WindowMean, Divide, SiteOf, Over, Hits;
    OverIsHits(p, n, r, t, q, |p|);
  }

  /** spectroscopy(): from the FFT output of all spectra of a beam or sub-spectrum to its
      labelled hits and coarse channel powers. */
  method Spectroscopy(o: Order, bors: nat, fft: seq<Complex>, chans: nat, n: nat, r: nat, t: real, maxhits: nat)
    returns (hits: seq<Hit>, pwrsX: seq<real>, pwrsY: seq<real>, ghost p: seq<real>, ghost means: seq<real>)
    requires ValidOrder(o) && chans > 0 && n > 0 && |fft| == (chans * 2) * n
    requires r >= 1 && 2 * r <= n - 1
    ensures p == PowersOf(fft)
    ensures Shape(p, n, r) && hits == Detected(o, bors, p, n, r, t, maxhits)
    ensures RowMeans(p, n, chans * 2, means) && |pwrsX| == |pwrsY| == chans
    ensures forall c :: 0 <= c < chans ==> pwrsX[c] == means[2 * c] && pwrsY[c] == means[2 * c + 1]
  {
    hide Detected, WindowMean, Divide, Over, RowMeans, Scan, Gathered, SiteOf;
    DivModUnique(chans * 2, 0, n);
    CellBound(0, 0, chans * 2, n);
    var dv := new DeviceVectors((chans * 2) * n);
    dv.ComputePowerSpectrum(fft);
    p := dv.powspec[..];
    pwrsX, pwrsY, means := dv.ReduceCoarseChannels(chans, n);
    dv.ComputeBaseline(n, r);
    dv.NormalizePowerSpectrum();
    var nhits := dv.FindHits(maxhits, t);
    hits := LabelHits(o, bors, n, dv.hitIndices, dv.hitPowers, dv.hitBaselines);
    DetectedIs(o, bors, p, n, r, t, maxhits, dv.normalised[..], dv.baseline[..], dv.hitIndices, hits);
  }
}
