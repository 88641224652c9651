/** Hit labels told from the wire: in a block the output of which is labelled, every
    sample a spectrum is made of is the one its label names, in the packet that carries
    its time. */
module LabelledWire {
  import opened Arith
  import opened Placement
  import opened Assembler
  import opened Labels
  import opened Delivery
  import opened EndToEnd

  /** The sample of a block is the sample of a packet's payload. */
  predicate SameSample(data: seq<Word>, q: nat, payload: seq<Word>, x: nat) {
    q / 4 < |data| && x / 4 < |payload| && Sample(data, q) == Sample(payload, x)
  }

  /** `a` is a packet of the run that belongs to the block at `start`. */
  predicate OfBlock(c: Config, start: nat, run: seq<Arrival>, a: Arrival)
    requires ValidConfig(c)
  {
    a in run && a.p.sid < c.nSources && BlockStart(c, a.p.mcnt) == start
  }

  lemma OwnedSample(c: Config, start: nat, run: seq<Arrival>, stream: (nat, nat) -> seq<Word>, data: seq<Word>,
                    a: Arrival, q: nat, x: nat)
    requires ValidConfig(c) && FromWire(c, start, run, stream, data) && OfBlock(c, start, run, a)
    requires q / 4 < UsedWords(c.layout, c.nm, c.nSources) && q % 4 == x % 4
    requires var o := Owner(c.layout, c.nm, q / 4);
             o.m == a.p.mcnt - start && o.key == Key(c.layout, a.p.sid) && o.j == x / 4
    ensures SameSample(data, q, stream(a.p.mcnt, Key(c.layout, a.p.sid)), x)
  {
    hide Owner, UsedWords, BlockStart, Lane;
    assert DataWord(c, start, a, q / 4);
    assert WordIs(c, stream, a, q / 4, data);
  }

  lemma PlaceInBlock(c: Config, start: nat, run: seq<Arrival>, a: Arrival)
    requires ValidConfig(c) && OfBlock(c, start, run, a)
    ensures start <= a.p.mcnt < start + c.nm
  {
    DivModSplit(a.p.mcnt, c.nm);
  }

  /** Green Bank: at the time t of spectrum i of a packet, batch b of the FFT for
      sub-spectrum `bors` reads the packet's sample of spectrum i at the channel and
      polarisation that hits of batch b are labelled with. */
  lemma DibasLabelsTrue(c: Config, start: nat, run: seq<Arrival>, stream: (nat, nat) -> seq<Word>, data: seq<Word>,
                        a: Arrival, bors: nat, i: nat, t: nat, b: nat)
    requires ValidConfig(c) && FromWire(c, start, run, stream, data) && OfBlock(c, start, run, a)
    requires c.layout.Dibas? && bors < c.layout.subs && i < c.layout.spectra && b < 2 * c.layout.subChans
    requires t == (a.p.mcnt - start) * c.layout.spectra + i
    ensures SameSample(data, DibasRead(c.layout, c.nm, bors, t, b), stream(a.p.mcnt, 0),
                       DibasLabelled(c.layout, i, bors, b))
  {
    PlaceInBlock(c, start, run, a);
    hide FromWire, OfBlock, UsedWords, Owner, DibasRead, DibasLabelled, WholeWords, SameSample;
    DibasFftReads(c.layout, c.nm, c.nSources, bors, a.p.mcnt - start, i, t, b);
    OwnedSample(c, start, run, stream, data, a, DibasRead(c.layout, c.nm, bors, t, b),
                DibasLabelled(c.layout, i, bors, b));
  }

  /** Arecibo: at the time of a packet, batch b of the FFT for the packet's beam reads the
      packet's sample at the channel and polarisation that hits of batch b are labelled
      with. */
  lemma AoLabelsTrue(c: Config, start: nat, run: seq<Arrival>, stream: (nat, nat) -> seq<Word>, data: seq<Word>,
                     a: Arrival, b: nat)
    requires ValidConfig(c) && FromWire(c, start, run, stream, data) && OfBlock(c, start, run, a)
    requires c.layout.Arecibo? && b < 2 * c.layout.chans
    ensures start <= a.p.mcnt
    ensures SameSample(data, FftSample(2 * c.layout.chans, c.nm, a.p.sid, a.p.mcnt - start, b),
                       stream(a.p.mcnt, a.p.sid), AoPacketSample(AoPol(b), AoCoarseChan(b)))
  {
    PlaceInBlock(c, start, run, a);
    hide FromWire, UsedWords, Owner, FftSample, AoPacketSample, AoPol, AoCoarseChan, WholeWords, SameSample;
    var m := a.p.mcnt - start;
    AoFftReads(c.layout.chans, c.nm, c.nSources, a.p.sid, m, b);
    OwnedSample(c, start, run, stream, data, a, FftSample(2 * c.layout.chans, c.nm, a.p.sid, m, b),
                AoPacketSample(AoPol(b), AoCoarseChan(b)));
  }
}
