/** Which polarisation and coarse channel a spectrum is said to belong to, and why
    that is where its samples came from: packet layout, placement in the block,
    FFT strides, hit labels and the fake data all number samples the same way. */
module Labels {
  import opened Arith
  import opened Placement

  /** Where a hit is said to be. */
  datatype Site = Site(pol: nat, chan: nat, fine: nat)

  /** How the spectra of one FFT call are ordered: at Arecibo pairs of channels by
      polarisation, at Green Bank (DiBAS) channel by channel. `bors` is the beam or
      sub-spectrum the call is for. */
  datatype Order = Ao | Dibas(chans: nat, subs: nat)

  predicate ValidOrder(o: Order) {
    o.Dibas? ==> o.subs > 0 && o.chans % o.subs == 0
  }

  function AoPol(s: nat): nat {
    (s / 2) % 2
  }

  function AoCoarseChan(s: nat): nat {
    (s / 4) * 2 + s % 2
  }

  function DibasPol(s: nat): nat {
    s % 2
  }

  function DibasCoarseChan(s: nat, sub: nat, chans: nat, subs: nat): nat
    requires subs > 0
  {
    s / 2 + (sub * chans) / subs
  }

  function PolOf(o: Order, s: nat): nat {
    if o.Ao? then AoPol(s) else DibasPol(s)
  }

  function ChanOf(o: Order, bors: nat, s: nat): nat
    requires ValidOrder(o)
  {
    if o.Ao? then AoCoarseChan(s) else DibasCoarseChan(s, bors, o.chans, o.subs)
  }

  /** The label of a hit, from its index in the vector of all spectra of the call. */
  function SiteOf(o: Order, bors: nat, nFine: nat, hitIndex: nat): Site
    requires ValidOrder(o) && nFine > 0
  {
    var spectrum := hitIndex / nFine;
    Site(PolOf(o, spectrum), ChanOf(o, bors, spectrum), hitIndex % nFine)
  }

  /** First coarse channel of a call. */
  function FirstChan(o: Order, bors: nat): nat
    requires ValidOrder(o)
  {
    if o.Ao? then 0 else bors * (o.chans / o.subs)
  }

  /** The spectrum that carries a channel and a polarisation. */
  function SpectrumOf(o: Order, bors: nat, pol: nat, chan: nat): nat
    requires ValidOrder(o) && FirstChan(o, bors) <= chan
  {
    if o.Ao? then (chan / 2) * 4 + pol * 2 + chan % 2 else (chan - FirstChan(o, bors)) * 2 + pol
  }

  lemma SubStart(sub: nat, chans: nat, subs: nat)
    requires subs > 0 && chans % subs == 0
    ensures (sub * chans) / subs == sub * (chans / subs)
  {
    DivModSplit(chans, subs);
    var q := chans / subs;
    assert sub * chans == (sub * q) * subs + 0 by {
      assert sub * chans == sub * (q * subs) == (sub * q) * subs;
    }
    MulMono(0, sub * q, subs);
    DivModUnique(sub * q, 0, subs);
  }

  /** A spectrum is told by its label ... */
  lemma SpectrumFromLabel(o: Order, bors: nat, s: nat)
    requires ValidOrder(o)
    ensures PolOf(o, s) < 2 && FirstChan(o, bors) <= ChanOf(o, bors, s)
    ensures SpectrumOf(o, bors, PolOf(o, s), ChanOf(o, bors, s)) == s
  {
    if o.Dibas? {
      SubStart(bors, o.chans, o.subs);
    }
  }

  /** ... and every label is the label of a spectrum. */
  lemma LabelFromSpectrum(o: Order, bors: nat, pol: nat, chan: nat)
    requires ValidOrder(o) && pol < 2 && FirstChan(o, bors) <= chan
    ensures PolOf(o, SpectrumOf(o, bors, pol, chan)) == pol
    ensures ChanOf(o, bors, SpectrumOf(o, bors, pol, chan)) == chan
  {
    if o.Dibas? {
      SubStart(bors, o.chans, o.subs);
    }
  }

  /** `n` channels, an even number at Arecibo, in two polarisations fill exactly
      the spectra below 2n. */
  lemma SpectraFill(o: Order, bors: nat, n: nat, s: nat)
    requires ValidOrder(o) && (o.Ao? ==> n % 2 == 0)
    ensures s < 2 * n <==> ChanOf(o, bors, s) < FirstChan(o, bors) + n
  {
    if o.Dibas? {
      SubStart(bors, o.chans, o.subs);
    }
  }

  /** A hit index is told by its label, and the hits of `n` channels get exactly
      those channels. */
  lemma HitIndexFromSite(o: Order, bors: nat, nFine: nat, n: nat, h: nat)
    requires ValidOrder(o) && nFine > 0 && (o.Ao? ==> n % 2 == 0)
    ensures var y := SiteOf(o, bors, nFine, h);
            && y.pol < 2 && y.fine < nFine && FirstChan(o, bors) <= y.chan
            && SpectrumOf(o, bors, y.pol, y.chan) * nFine + y.fine == h
            && (h < (2 * n) * nFine <==> y.chan < FirstChan(o, bors) + n)
  {
    hide PolOf, ChanOf, SpectrumOf, FirstChan, ValidOrder;
    var s := h / nFine;
    DivModSplit(h, nFine);
    SpectrumFromLabel(o, bors, s);
    SpectraFill(o, bors, n, s);
    if s < 2 * n {
      CellBound(s, h % nFine, 2 * n, nFine);
    } else {
      MulMono(2 * n, s, nFine);
    }
  }

  /** Every label of the call is the label of a hit index. */
  lemma SiteFromHitIndex(o: Order, bors: nat, nFine: nat, x: Site)
    requires ValidOrder(o) && x.pol < 2 && FirstChan(o, bors) <= x.chan && x.fine < nFine
    ensures SpectrumOf(o, bors, x.pol, x.chan) * nFine + x.fine >= 0
    ensures SiteOf(o, bors, nFine, SpectrumOf(o, bors, x.pol, x.chan) * nFine + x.fine) == x
  {
    hide PolOf, ChanOf, SpectrumOf, FirstChan, ValidOrder;
    DivModUnique(SpectrumOf(o, bors, x.pol, x.chan), x.fine, nFine);
    LabelFromSpectrum(o, bors, x.pol, x.chan);
  }

  // ---- from the packet to the FFT ------------------------------------------------------

  /** One of the four two-byte samples of a word, in memory order. */
  function Lane(w: Word, lane: nat): bv16 {
    if lane == 0 then (w & 0xFFFF) as bv16
    else if lane == 1 then ((w >> 16) & 0xFFFF) as bv16
    else if lane == 2 then ((w >> 32) & 0xFFFF) as bv16
    else ((w >> 48) & 0xFFFF) as bv16
  }

  /** The samples make up the word, the first in its low bits. */
  lemma LanesMakeWord(w: Word)
    ensures w == (Lane(w, 3) as bv64 << 48) | (Lane(w, 2) as bv64 << 32)
                 | (Lane(w, 1) as bv64 << 16) | Lane(w, 0) as bv64
  {
  }

  /** Sample `q` of an area of words. */
  function Sample(data: seq<Word>, q: nat): bv16
    requires q / 4 < |data|
  {
    Lane(data[q / 4], q % 4)
  }

  /** The sample of the block that time `t` of batch `k` of the FFT for `bors` reads:
      the call starts at its share of the block, batches are one sample apart and
      times one row of `stride` samples. */
  function FftSample(stride: nat, nTimes: nat, bors: nat, t: nat, k: nat): nat {
    bors * (stride * nTimes) + (t * stride + k)
  }

  /** Position in an Arecibo packet of a channel and polarisation. */
  function AoPacketSample(pol: nat, chan: nat): nat {
    (chan / 2) * 4 + pol * 2 + chan % 2
  }

  /** Position in a DiBAS packet of a spectrum, channel and polarisation. */
  function DibasPacketSample(chans: nat, spectrum: nat, pol: nat, chan: nat): nat {
    (spectrum * chans + chan) * 2 + pol
  }

  /** A row of 4u samples is a row of u words. */
  lemma WordOfSample(row: nat, u: nat, k: nat)
    requires k < 4 * u
    ensures (row * (4 * u) + k) / 4 == row * u + k / 4
    ensures (row * (4 * u) + k) % 4 == k % 4
  {
    assert row * (4 * u) == 4 * (row * u);
    MulMono(0, row, u);
  }

  lemma FftRow(stride: nat, nTimes: nat, bors: nat, t: nat, k: nat)
    ensures FftSample(stride, nTimes, bors, t, k) == (bors * nTimes + t) * stride + k
  {
    assert bors * (stride * nTimes) == (bors * nTimes) * stride;
    assert (bors * nTimes + t) * stride == (bors * nTimes) * stride + t * stride;
  }

  /** Arecibo: what the FFT reads for time t and batch k of beam `bors` is packet t of that
      beam, at the channel and polarisation the hit labels give to spectrum k. */
  lemma AoFftReads(chans: nat, nm: nat, nSources: nat, bors: nat, t: nat, k: nat)
    requires WholeWords(Arecibo(chans)) && nm > 0 && bors < nSources && t < nm && k < 2 * chans
    ensures var l, q := Arecibo(chans), FftSample(2 * chans, nm, bors, t, k);
            var x := AoPacketSample(AoPol(k), AoCoarseChan(k));
            && q / 4 < UsedWords(l, nm, nSources)
            && Owner(l, nm, q / 4) == Cell(t, bors, x / 4)
            && q % 4 == x % 4 && x / 4 < PayloadWords(l)
  {
    var l, u := Arecibo(chans), chans / 2;
    FftRow(2 * chans, nm, bors, t, k);
    WordOfSample(bors * nm + t, u, k);
    SpectrumFromLabel(Ao, bors, k);
    assert AoPacketSample(AoPol(k), AoCoarseChan(k)) == k;
    var r := Row(t, bors, 0);
    RowAddrInBlock(l, nm, nSources, r);
    WordInRow(RowAddr(l, nm, r), k / 4, RowsPerBlock(l, nm, nSources), u);
  }

  /** Coarse channels of a DiBAS packet, and times of a block: as many as the FFT is long. */
  function Chans(l: Layout): nat
    requires l.Dibas?
  {
    l.subs * l.subChans
  }

  function Times(l: Layout, nm: nat): nat
    requires l.Dibas?
  {
    nm * l.spectra
  }

  /** The sample of the block that batch `k` reads at time `t`. */
  function DibasRead(l: Layout, nm: nat, bors: nat, t: nat, k: nat): nat
    requires l.Dibas?
  {
    FftSample(2 * l.subChans, Times(l, nm), bors, t, k)
  }

  /** The position in a packet of the channel and polarisation that hits in spectrum `k`
      are labelled with, in the packet's spectrum `i`. */
  function DibasLabelled(l: Layout, i: nat, bors: nat, k: nat): nat
    requires l.Dibas? && l.subs > 0
  {
    DibasPacketSample(Chans(l), i, DibasPol(k), DibasCoarseChan(k, bors, Chans(l), l.subs))
  }

  /** DiBAS: what the FFT of batch k of sub-spectrum `bors` reads at the time of spectrum i
      of packet m is from that packet, at the channel and polarisation the hit labels give
      to spectrum k. */
  lemma DibasFftReads(l: Layout, nm: nat, nSources: nat, bors: nat, m: nat, i: nat, t: nat, k: nat)
    requires l.Dibas? && WholeWords(l) && nm > 0 && bors < l.subs && m < nm && i < l.spectra && k < 2 * l.subChans
    requires t == m * l.spectra + i
    ensures t < Times(l, nm)
    ensures var q, x := DibasRead(l, nm, bors, t, k), DibasLabelled(l, i, bors, k);
            && q / 4 < UsedWords(l, nm, nSources)
            && Owner(l, nm, q / 4) == Cell(m, 0, x / 4)
            && q % 4 == x % 4 && x / 4 < PayloadWords(l)
  {
    var r := Row(m, 0, i * l.subs + bors);
    DibasRow(l, nm, nSources, bors, m, i);
    DibasPosition(l.subs, l.subChans, i, bors, k);
    FftRow(2 * l.subChans, Times(l, nm), bors, t, k);
    CellBound(m, i, nm, l.spectra);
    assert 2 * l.subChans == 4 * RowWords(l);
    hide DibasPacketSample, DibasCoarseChan, DibasPol, FftSample, RowAddr, RowWords, WholeWords, Owner, UsedWords;
    DibasWord(l, nm, nSources, r, k, DibasRead(l, nm, bors, t, k), DibasLabelled(l, i, bors, k));
  }

  lemma DibasRow(l: Layout, nm: nat, nSources: nat, bors: nat, m: nat, i: nat)
    requires l.Dibas? && WholeWords(l) && nm > 0 && bors < l.subs && m < nm && i < l.spectra
    ensures var r := Row(m, 0, i * l.subs + bors);
            IsRow(l, nm, nSources, r) && RowAddr(l, nm, r) == bors * Times(l, nm) + (m * l.spectra + i)
  {
    CellBound(i, bors, l.spectra, l.subs);
    DivModUnique(i, bors, l.subs);
  }

  lemma DibasWord(l: Layout, nm: nat, nSources: nat, r: Row, k: nat, q: nat, x: nat)
    requires l.Dibas? && WholeWords(l) && nm > 0 && IsRow(l, nm, nSources, r) && k < 4 * RowWords(l)
    requires q == RowAddr(l, nm, r) * (4 * RowWords(l)) + k
    requires x == r.k * (4 * RowWords(l)) + k
    ensures q / 4 < UsedWords(l, nm, nSources)
    ensures Owner(l, nm, q / 4) == Cell(r.m, 0, x / 4)
    ensures q % 4 == x % 4 && x / 4 < PayloadWords(l)
  {
    var u := RowWords(l);
    RowAddrInBlock(l, nm, nSources, r);
    hide RowAddr, RowOwner, RowWords, RowsPerBlock, RowsPerPacket, WholeWords;
    WordOfSample(RowAddr(l, nm, r), u, k);
    WordOfSample(r.k, u, k);
    WordInRow(RowAddr(l, nm, r), k / 4, RowsPerBlock(l, nm, nSources), u);
    WordInRow(r.k, k / 4, RowsPerPacket(l), u);
  }

  lemma DibasPosition(subs: nat, subChans: nat, i: nat, bors: nat, k: nat)
    requires subs > 0
    ensures var chans := subs * subChans;
            DibasPacketSample(chans, i, DibasPol(k), DibasCoarseChan(k, bors, chans, subs))
            == (i * subs + bors) * (2 * subChans) + k
  {
    var chans := subs * subChans;
    DivModUnique(subChans, 0, subs);
    SubStart(bors, chans, subs);
    Regroup(i, subs, bors, subChans);
  }

  lemma Regroup(i: nat, subs: nat, bors: nat, c: nat)
    ensures (i * subs + bors) * (2 * c) == 2 * (i * (subs * c)) + 2 * (bors * c)
  {
    assert (i * subs + bors) * (2 * c) == (i * subs) * (2 * c) + bors * (2 * c);
    assert (i * subs) * (2 * c) == 2 * ((i * subs) * c);
    assert (i * subs) * c == i * (subs * c);
  }

  // ---- coarse channel powers ------------------------------------------------------------

  /** The even members of a vector are copied to the X powers, the odd ones to Y. */
  function Strided<T>(v: seq<T>, first: nat): (s: seq<T>)
    requires first <= |v|
    ensures |s| == (|v| - first + 1) / 2
    ensures forall c :: 0 <= c < |s| ==> s[c] == v[first + 2 * c]
  {
    seq((|v| - first + 1) / 2, c requires 0 <= c < (|v| - first + 1) / 2 => v[first + 2 * c])
  }

  /** Slot c of the X and Y powers of a call is meant for channel c of the call in
      polarisation 0 and 1. At Green Bank it always is; at Arecibo X only for even
      channels and Y only for odd ones. */
  lemma PowersInSlots(o: Order, bors: nat, c: nat)
    requires ValidOrder(o)
    ensures PolOf(o, 2 * c) == 0 && ChanOf(o, bors, 2 * c) == FirstChan(o, bors) + c <==> o.Dibas? || c % 2 == 0
    ensures PolOf(o, 2 * c + 1) == 1 && ChanOf(o, bors, 2 * c + 1) == FirstChan(o, bors) + c <==> o.Dibas? || c % 2 == 1
  {
    if o.Dibas? {
      SubStart(bors, o.chans, o.subs);
    }
  }

  // ---- transposition --------------------------------------------------------------------

  /** The index in the source of element `x` of the transpose of an m-by-n array. */
  function TransposeIndex(m: nat, n: nat, x: nat): nat
    requires m > 0
  {
    n * (x % m) + x / m
  }

  function Transpose<T>(m: nat, n: nat, src: seq<T>): (dst: seq<T>)
    requires m > 0 && |src| == m * n
    ensures |dst| == |src|
  {
    seq(|src|, x requires 0 <= x < |src| => (TransposeInBounds(m, n, x); src[TransposeIndex(m, n, x)]))
  }

  lemma TransposeInBounds(m: nat, n: nat, x: nat)
    requires m > 0 && x < m * n
    ensures TransposeIndex(m, n, x) < m * n
  {
    DivModSplit(x, m);
    assert m * n == n * m;
    RowBound(x, n, m);
    CellBound(x % m, x / m, m, n);
    assert n * (x % m) == (x % m) * n;
  }

  /** Rows become columns. */
  lemma TransposeMeans<T>(m: nat, n: nat, src: seq<T>, i: nat, j: nat)
    requires m > 0 && |src| == m * n && i < m && j < n
    ensures 0 <= j * m + i < |src| && 0 <= i * n + j < |src|
    ensures Transpose(m, n, src)[j * m + i] == src[i * n + j]
  {
    CellBound(j, i, n, m);
    assert m * n == n * m;
    CellBound(i, j, m, n);
    DivModUnique(j, i, m);
    assert n * i == i * n;
  }

  lemma TransposeTwiceAt<T>(m: nat, n: nat, src: seq<T>, once: seq<T>, x: nat)
    requires m > 0 && n > 0 && |src| == m * n == n * m
    requires once == Transpose(m, n, src)
    requires x < |src|
    ensures Transpose(n, m, once)[x] == src[x]
  {
    hide Transpose;
    RowBound(x, m, n);
    DivModSplit(x, n);
    TransposeMeans(n, m, once, x % n, x / n);
    TransposeMeans(m, n, src, x / n, x % n);
  }

  /** Transposing back restores the array. */
  lemma TransposeTwice<T>(m: nat, n: nat, src: seq<T>)
    requires m > 0 && n > 0 && |src| == m * n == n * m
    ensures Transpose(n, m, Transpose(m, n, src)) == src
  {
    hide Transpose;
    var once := Transpose(m, n, src);
    forall x: nat | x < |src| ensures Transpose(n, m, once)[x] == src[x] {
      TransposeTwiceAt(m, n, src, once, x);
    }
  }
}
