/** The generator of fake input: it scatters one made-up time series for each beam or
    sub-spectrum and polarisation into the input block, at the samples the FFT reads. */
module FakeData {
  import opened Arith
  import opened Labels

  /** Sizes of one block: beams or sub-spectra, polarisations, channels of each, times. */
  datatype Sizes = Sizes(nBors: nat, nPols: nat, chans: nat, times: nat)

  /** Samples of one series, and of one beam or sub-spectrum. */
  function SeriesLength(s: Sizes): nat {
    s.times * s.chans
  }

  function Share(s: Sizes): nat {
    SeriesLength(s) * s.nPols
  }

  /** Which sample of which series a sample of the block is. */
  datatype Origin = Origin(bors: nat, pol: nat, j: nat)

  predicate IsOrigin(s: Sizes, x: Origin) {
    x.bors < s.nBors && x.pol < s.nPols && x.j < SeriesLength(s)
  }

  function DstLocator(s: Sizes, x: Origin): nat {
    x.bors * Share(s) + (x.j * s.nPols + x.pol)
  }

  function OriginOf(s: Sizes, q: nat): Origin
    requires s.nPols > 0 && Share(s) > 0
  {
    DivModSplit(q, Share(s));
    DivModSplit(q % Share(s), s.nPols);
    Origin(q / Share(s), (q % Share(s)) % s.nPols, (q % Share(s)) / s.nPols)
  }

  /** Each sample of each series has its own place in the block ... */
  lemma ScatterInjective(s: Sizes, x: Origin)
    requires IsOrigin(s, x)
    ensures DstLocator(s, x) < s.nBors * Share(s)
    ensures s.nPols > 0 && Share(s) > 0 && OriginOf(s, DstLocator(s, x)) == x
  {
    var at := x.j * s.nPols + x.pol;
    CellBound(x.j, x.pol, SeriesLength(s), s.nPols);
    CellBound(x.bors, at, s.nBors, Share(s));
    DivModUnique(x.bors, at, Share(s));
    DivModUnique(x.j, x.pol, s.nPols);
  }

  /** ... and every place has a sample. */
  lemma ScatterSurjective(s: Sizes, q: nat)
    requires s.nPols > 0 && Share(s) > 0 && q < s.nBors * Share(s)
    ensures IsOrigin(s, OriginOf(s, q)) && DstLocator(s, OriginOf(s, q)) == q
  {
    RowBound(q, s.nBors, Share(s));
    DivModSplit(q, Share(s));
    RowBound(q % Share(s), SeriesLength(s), s.nPols);
    DivModSplit(q % Share(s), s.nPols);
  }

  /** The place of channel cc at time t is the sample that batch cc * nPols + pol of the
      FFT for `bors` reads at time t. */
  lemma ScatterMeetsFft(s: Sizes, bors: nat, pol: nat, t: nat, cc: nat)
    ensures t * s.chans + cc >= 0 && cc * s.nPols + pol >= 0
    ensures DstLocator(s, Origin(bors, pol, t * s.chans + cc))
            == FftSample(s.chans * s.nPols, s.times, bors, t, cc * s.nPols + pol)
  {
    var stride := s.chans * s.nPols;
    assert Share(s) == stride * s.times by {
      assert (s.times * s.chans) * s.nPols == s.times * (s.chans * s.nPols);
    }
    assert (t * s.chans + cc) * s.nPols == (t * s.chans) * s.nPols + cc * s.nPols;
    assert (t * s.chans) * s.nPols == t * (s.chans * s.nPols);
  }

  /** Hits in the fake series of channel cc and polarisation pol are labelled so at Green
      Bank always, at Arecibo only when the channel's parity is the polarisation. */
  lemma ScatterMeetsLabels(o: Order, bors: nat, pol: nat, cc: nat)
    requires ValidOrder(o) && pol < 2
    ensures PolOf(o, cc * 2 + pol) == pol && ChanOf(o, bors, cc * 2 + pol) == FirstChan(o, bors) + cc
       <==> o.Dibas? || cc % 2 == pol
  {
    if o.Dibas? {
      SubStart(bors, o.chans, o.subs);
    }
  }

  /** Whether the generator has come past a sample of a series. */
  predicate Done(x: Origin, bors: nat, pol: nat, j: nat) {
    x.bors < bors || (x.bors == bors && (x.pol < pol || (x.pol == pol && x.j < j)))
  }

  /** A block with the samples done so far. */
  ghost predicate Scattered<T(!new)>(s: Sizes, series: (nat, nat) -> seq<T>, was: seq<T>, now: seq<T>,
                                        bors: nat, pol: nat, j: nat)
    requires s.nPols > 0 && Share(s) > 0
    requires forall b, p :: |series(b, p)| == SeriesLength(s)
  {
    && |now| == |was|
    && forall q: nat :: q < |was| ==>
         now[q] == if q < s.nBors * Share(s) && Done(OriginOf(s, q), bors, pol, j)
                   then (ScatterSurjective(s, q); series(OriginOf(s, q).bors, OriginOf(s, q).pol)[OriginOf(s, q).j])
                   else was[q]
  }

  lemma ScatterOne<T(!new)>(s: Sizes, series: (nat, nat) -> seq<T>, was: seq<T>, now: seq<T>, x: Origin)
    requires IsOrigin(s, x) && s.nPols > 0 && Share(s) > 0
    requires forall b, p :: |series(b, p)| == SeriesLength(s)
    requires Scattered(s, series, was, now, x.bors, x.pol, x.j)
    requires |was| >= s.nBors * Share(s)
    ensures DstLocator(s, x) < |now|
    ensures Scattered(s, series, was, now[DstLocator(s, x) := series(x.bors, x.pol)[x.j]], x.bors, x.pol, x.j + 1)
  {
    ScatterInjective(s, x);
    var dst := DstLocator(s, x);
    var next := now[dst := series(x.bors, x.pol)[x.j]];
    forall q: nat | q < |was|
      ensures next[q] == if q < s.nBors * Share(s) && Done(OriginOf(s, q), x.bors, x.pol, x.j + 1)
                         then (ScatterSurjective(s, q);
                               series(OriginOf(s, q).bors, OriginOf(s, q).pol)[OriginOf(s, q).j])
                         else was[q]
    {
      if q < s.nBors * Share(s) {
        ScatterSurjective(s, q);
        assert q != dst ==> OriginOf(s, q) != x;
      }
    }
  }

  lemma ScatterTurn<T(!new)>(s: Sizes, series: (nat, nat) -> seq<T>, was: seq<T>, now: seq<T>, bors: nat, pol: nat)
    requires s.nPols > 0 && Share(s) > 0
    requires forall b, p :: |series(b, p)| == SeriesLength(s)
    ensures Scattered(s, series, was, now, bors, pol, SeriesLength(s)) <==>
            Scattered(s, series, was, now, bors, pol + 1, 0)
    ensures Scattered(s, series, was, now, bors, s.nPols, 0) <==> Scattered(s, series, was, now, bors + 1, 0, 0)
  {
    forall q: nat | q < s.nBors * Share(s)
      ensures Done(OriginOf(s, q), bors, pol, SeriesLength(s)) <==> Done(OriginOf(s, q), bors, pol + 1, 0)
      ensures Done(OriginOf(s, q), bors, s.nPols, 0) <==> Done(OriginOf(s, q), bors + 1, 0, 0)
    {
      ScatterSurjective(s, q);
    }
  }

  /** gen_fake_data: every sample of the block's used part comes from its own series,
      and nothing behind that part changes. */
  method GenFakeData<T(!new)>(s: Sizes, series: (nat, nat) -> seq<T>, data: array<T>)
    requires s.nPols > 0 && Share(s) > 0 && data.Length >= s.nBors * Share(s)
    requires forall b, p :: |series(b, p)| == SeriesLength(s)
    modifies data
    ensures Scattered(s, series, old(data[..]), data[..], s.nBors, 0, 0)
  {
    ghost var was := data[..];
    for bors := 0 to s.nBors
      invariant Scattered(s, series, was, data[..], bors, 0, 0)
    {
      for pol := 0 to s.nPols
        invariant Scattered(s, series, was, data[..], bors, pol, 0)
      {
        var gen := series(bors, pol);
        for j := 0 to SeriesLength(s)
          invariant Scattered(s, series, was, data[..], bors, pol, j)
        {
          ghost var x := Origin(bors, pol, j);
          ghost var now := data[..];
          ScatterOne(s, series, was, now, x);
          data[bors * Share(s) + (j * s.nPols + pol)] := gen[j];
          assert data[..] == now[DstLocator(s, x) := gen[j]];
        }
        ScatterTurn(s, series, was, data[..], bors, pol);
      }
      ScatterTurn(s, series, was, data[..], bors, 0);
    }
  }

  /** What is in the block afterwards: the FFT of batch cc * nPols + pol reads series
      (bors, pol), channel cc, at every time. */
  lemma FakeBlock<T(!new)>(s: Sizes, series: (nat, nat) -> seq<T>, was: seq<T>, now: seq<T>, x: Origin)
    requires IsOrigin(s, x) && s.nPols > 0 && Share(s) > 0
    requires forall b, p :: |series(b, p)| == SeriesLength(s)
    requires Scattered(s, series, was, now, s.nBors, 0, 0)
    requires |was| >= s.nBors * Share(s)
    ensures DstLocator(s, x) < |now| && now[DstLocator(s, x)] == series(x.bors, x.pol)[x.j]
  {
    ScatterInjective(s, x);
  }
}
