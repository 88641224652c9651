/** From packets on the wire to what the output thread reads. */
module EndToEnd {
  import opened Arith
  import opened Placement
  import opened Assembler
  import opened Jitter
  import opened Ledger
  import opened Delivery
  import opened Pipeline

  /** The assembler once the packet it may be waiting with has been stored. */
  function Settled<R>(g: Plant, p: Pipe<R>): (s: State)
    requires ValidPlant(g) && Sized(g, p)
    requires p.netPc.Waiting? ==> Nominal(g.c, p.netPc.a)
    ensures Shaped(g.c, s)
  {
    match p.netPc
    case Ready => p.net
    case Waiting(a) => Store(g.c, Acquire(g.c, p.net, a.p), a.p)
  }

  /** The packets of a run of the three threads. */
  function Arrivals(es: seq<Event>): seq<Arrival> {
    if es == [] then []
    else if es[0].NetPacket? then [es[0].a] + Arrivals(es[1..])
    else Arrivals(es[1..])
  }

  lemma {:induction false} RunCons(c: Config, s: State, a: Arrival, rest: seq<Arrival>)
    requires ValidConfig(c) && Shaped(c, s) && Nominal(c, a) && AllNominal(c, rest)
    ensures AllNominal(c, [a] + rest)
    ensures Run(c, s, [a] + rest) == Run(c, Step(c, s, a), rest)
  {
    hide Step, Shaped, Nominal;
    var run := [a] + rest;
    if rest == [] {
      assert run[..0] == [] && run[0] == a;
      assert Run(c, s, run[..0]) == s;
    } else {
      var n := |rest| - 1;
      RunCons(c, s, a, rest[..n]);
      assert run[..n + 1] == [a] + rest[..n] && run[n + 1] == rest[n];
    }
  }

  lemma SettledNext<R>(g: Plant, work: (Header, seq<Word>) -> R, blank: R, p: Pipe<R>, e: Event)
    requires ValidPlant(g) && PipeInv(g, work, blank, p) && Enabled(g, p, e)
    ensures var q := Next(g, work, blank, p, e);
            && (q.netPc.Waiting? ==> Nominal(g.c, q.netPc.a))
            && Settled(g, q) == if e.NetPacket? then Step(g.c, Settled(g, p), e.a) else Settled(g, p)
  {
    hide PipeInv, Inv, Shaped, Store, Acquire, Release, Classify;
    NextInv(g, work, blank, p, e);
    PipeNet(g, work, blank, p);
    PipeNet(g, work, blank, Next(g, work, blank, p, e));
  }

  lemma PipeNet<R>(g: Plant, work: (Header, seq<Word>) -> R, blank: R, p: Pipe<R>)
    requires ValidPlant(g) && PipeInv(g, work, blank, p)
    ensures Sized(g, p) && NetOk(g, p)
  {
  }

  /** Whatever the other threads do in between, the net thread does to the ring
      exactly what the assembler alone does with the same packets. */
  lemma {:induction false} SettledRuns<R>(g: Plant, work: (Header, seq<Word>) -> R, blank: R, p: Pipe<R>,
                                          es: seq<Event>)
    requires ValidPlant(g) && PipeInv(g, work, blank, p) && Possible(g, work, blank, p, es)
    ensures AllNominal(g.c, Arrivals(es))
    ensures PipeInv(g, work, blank, After(g, work, blank, p, es))
    ensures Settled(g, After(g, work, blank, p, es)) == Run(g.c, Settled(g, p), Arrivals(es))
    decreases |es|
  {
    if es != [] {
      var q := Next(g, work, blank, p, es[0]);
      NextInv(g, work, blank, p, es[0]);
      SettledNext(g, work, blank, p, es[0]);
      SettledRuns(g, work, blank, q, es[1..]);
      if es[0].NetPacket? {
        RunCons(g.c, Settled(g, p), es[0].a, Arrivals(es[1..]));
      }
    }
  }

  /** Every word of the block at `start` that belongs to a packet of the run is the stream's. */
  ghost predicate FromWire(c: Config, start: nat, run: seq<Arrival>, stream: (nat, nat) -> seq<Word>, data: seq<Word>)
    requires ValidConfig(c)
  {
    |data| == c.blockWords && forall a, w :: a in run && DataWord(c, start, a, w) ==> WordIs(c, stream, a, w, data)
  }

  /** The missed-packet counters of the block at `start` are what is left of nm after all
      packets of the run that belong to it. */
  ghost predicate LossesCounted(c: Config, start: nat, run: seq<Arrival>, missed: seq<nat>)
    requires ValidConfig(c)
  {
    && |missed| == c.nBors
    && forall x :: 0 <= x < c.nBors ==> missed[x] == U64(c.nm as int - Count(c, Belonging(c, run, start), x))
  }

  /** Everything a block is said to be: the one at `start`, with the wire's data and losses. */
  ghost predicate Faithful(c: Config, start: nat, run: seq<Arrival>, stream: (nat, nat) -> seq<Word>, f: Fill)
    requires ValidConfig(c)
  {
    f.header.mcnt == start && FromWire(c, start, run, stream, f.data) && LossesCounted(c, start, run, f.header.missed)
  }

  /** A block handed on in a jittered run. */
  lemma BlockFromWire(c: Config, t: State, l: Books, top: nat, run: seq<Arrival>, stream: (nat, nat) -> seq<Word>,
                      k: nat)
    requires ValidConfig(c) && Roomy(c) && Onset(c, t, l, top) && AllNominal(c, run)
    requires Jittered(c, top, run) && OfStream(c, run, stream)
    requires |t.released| <= k < |Run(c, t, run).released|
    ensures Faithful(c, StartOf(c, t, k - |t.released|), run, stream, Run(c, t, run).released[k])
  {
    hide Run, Jittered, Belonging, Count, Owner, UsedWords, BlockStart, LogOk, Onset, StartOf, OfStream, DataWord,
         WordIs;
    var start := StartOf(c, t, k - |t.released|);
    var f, b := DeliveredBook(c, t, l, top, run, k);
    forall a, w | a in run && DataWord(c, start, a, w) ensures WordIs(c, stream, a, w, f.data) {
      DeliveredData(c, t, l, top, run, stream, k, a, w);
    }
  }

  /** A history with a part that is followed: `before` ends at start-up or with a packet
      that caused a reset, the packets of `run` come with jitter up to half a block. */
  ghost predicate Stretch(c: Config, s: State, before: seq<Arrival>, top: nat, run: seq<Arrival>)
    requires ValidConfig(c) && IsBlank(c, s)
  {
    AllNominal(c, before) && AllNominal(c, run) && Begins(c, s, before, top) && Jittered(c, top, run)
  }

  /** The assembler after some packets from start-up. */
  function Since(c: Config, s: State, before: seq<Arrival>): State
    requires ValidConfig(c) && IsBlank(c, s) && forall a <- before :: Nominal(c, a)
  {
    Run(c, Start(c, s), before)
  }

  /** The k-th block is one of those handed on during `run`. */
  ghost predicate FilledIn(c: Config, s: State, before: seq<Arrival>, run: seq<Arrival>, k: nat)
    requires ValidConfig(c) && IsBlank(c, s) && AllNominal(c, before) && AllNominal(c, run)
  {
    |Since(c, s, before).released| <= k < |Since(c, s, before + run).released|
  }

  /** Where it starts: blocks are consecutive from the start or the reset on. */
  function FilledAt(c: Config, s: State, before: seq<Arrival>, k: nat): nat
    requires ValidConfig(c) && IsBlank(c, s) && forall a <- before :: Nominal(c, a)
    requires |Since(c, s, before).released| <= k
  {
    StartOf(c, Since(c, s, before), k - |Since(c, s, before).released|)
  }

  /** In any history, with any number of resets, every block handed on during a jittered
      stretch has the packets of that stretch, whatever came before and comes after. */
  lemma BlockOfHistory(c: Config, s: State, before: seq<Arrival>, top: nat, run: seq<Arrival>, later: seq<Arrival>,
                       stream: (nat, nat) -> seq<Word>, k: nat)
    requires ValidConfig(c) && Roomy(c) && IsBlank(c, s) && Stretch(c, s, before, top, run) && AllNominal(c, later)
    requires OfStream(c, run, stream) && FilledIn(c, s, before, run, k)
    ensures AllNominal(c, before + run + later) && k < |Since(c, s, before + run + later).released|
    ensures Faithful(c, FilledAt(c, s, before, k), run, stream, Since(c, s, before + run + later).released[k])
  {
    hide Run, Jittered, Onset, StartOf, OfStream, Faithful, Start, Begins, Shaped, Nominal;
    var b, m := Since(c, s, before), KeptRun(c, Start(c, s), NoBooks(c, s), before);
    BeginsOnset(c, s, before, top);
    RunSplit(c, Start(c, s), before, run);
    RunSplit(c, Start(c, s), before + run, later);
    RunReleases(c, Since(c, s, before + run), later);
    BlockFromWire(c, b, m, top, run, stream, k);
    assert Since(c, s, before + run) == Run(c, b, run);
  }

  /** The whole way, in any run of the three threads. Among the packets that came let
      there be a stretch, from start-up or from a reset on, that comes with jitter up to
      half a block and carries one stream. Every block filled during it that the output
      thread reads is the one expected at its place, its result is that of spectroscopy
      on a data area in which every word that belongs to a packet of the stretch is the
      stream's, and its losses are counted exactly. */
  lemma StreamToOutput<R>(g: Plant, work: (Header, seq<Word>) -> R, blank: R, s: State, es: seq<Event>,
                          before: seq<Arrival>, top: nat, run: seq<Arrival>, later: seq<Arrival>,
                          stream: (nat, nat) -> seq<Word>, p: Pipe<R>, k: nat)
    requires ValidPlant(g) && Roomy(g.c) && IsBlank(g.c, s)
    requires Possible(g, work, blank, Begin(g, blank, s), es) && p == After(g, work, blank, Begin(g, blank, s), es)
    requires Stretch(g.c, s, before, top, run) && Arrivals(es) == before + run + later
    requires OfStream(g.c, run, stream) && FilledIn(g.c, s, before, run, k) && k < |p.delivered|
    ensures k < |p.net.released|
    ensures var d, f, start := p.delivered[k], p.net.released[k], FilledAt(g.c, s, before, k);
            && Faithful(g.c, start, run, stream, f)
            && d.header.mcnt == start && d.result == work(f.header, f.data)
  {
    hide PipeInv, Run, OfStream, FromWire, LossesCounted, Begin, Start, Possible, After, Arrivals, Settled, Shaped,
         StartOf, Stretch, Nominal;
    BeginSettled(g, work, blank, s);
    SettledRuns(g, work, blank, Begin(g, blank, s), es);
    Fifo(g, work, blank, s, es);
    SettledReleased(g, work, blank, p);
    LaterNominal(g.c, before + run, later);
    assert AllNominal(g.c, before) && AllNominal(g.c, run) by { StretchNominal(g.c, s, before, top, run); }
    BlockOfHistory(g.c, s, before, top, run, later, stream, k);
  }

  lemma LaterNominal(c: Config, run: seq<Arrival>, later: seq<Arrival>)
    requires ValidConfig(c) && AllNominal(c, run + later)
    ensures AllNominal(c, later)
  {
    forall a <- later ensures Nominal(c, a) {
      assert a in run + later;
    }
  }

  lemma StretchNominal(c: Config, s: State, before: seq<Arrival>, top: nat, run: seq<Arrival>)
    requires ValidConfig(c) && IsBlank(c, s) && Stretch(c, s, before, top, run)
    ensures AllNominal(c, before) && AllNominal(c, run)
  {
  }

  /** From start-up on: the k-th block the output thread reads is the one at mcnt k * nm. */
  lemma StreamFromStart<R>(g: Plant, work: (Header, seq<Word>) -> R, blank: R, s: State, es: seq<Event>,
                           stream: (nat, nat) -> seq<Word>, p: Pipe<R>, k: nat)
    requires ValidPlant(g) && Roomy(g.c) && IsBlank(g.c, s)
    requires Possible(g, work, blank, Begin(g, blank, s), es) && p == After(g, work, blank, Begin(g, blank, s), es)
    requires Jittered(g.c, 0, Arrivals(es)) && OfStream(g.c, Arrivals(es), stream)
    requires k < |p.delivered|
    ensures k < |p.net.released|
    ensures var d, f := p.delivered[k], p.net.released[k];
            && Faithful(g.c, k * g.c.nm, Arrivals(es), stream, f)
            && d.header.mcnt == k * g.c.nm && d.result == work(f.header, f.data)
  {
    hide PipeInv, Jittered, OfStream, Faithful, Begin, Possible, After, Arrivals, Settled, Shaped, Nominal;
    var run := Arrivals(es);
    assert [] + run == run && run + [] == run;
    BeginSettled(g, work, blank, s);
    SettledRuns(g, work, blank, Begin(g, blank, s), es);
    Fifo(g, work, blank, s, es);
    SettledReleased(g, work, blank, p);
    StreamToOutput(g, work, blank, s, es, [], 0, run, [], stream, p, k);
  }

  lemma BeginSettled<R>(g: Plant, work: (Header, seq<Word>) -> R, blank: R, s: State)
    requires ValidPlant(g) && IsBlank(g.c, s)
    ensures PipeInv(g, work, blank, Begin(g, blank, s))
    ensures Begin(g, blank, s).netPc.Ready? && Settled(g, Begin(g, blank, s)) == Start(g.c, s)
  {
    BeginInv(g, work, blank, s);
  }

  lemma SettledReleased<R>(g: Plant, work: (Header, seq<Word>) -> R, blank: R, p: Pipe<R>)
    requires ValidPlant(g) && PipeInv(g, work, blank, p)
    ensures p.netPc.Waiting? ==> Nominal(g.c, p.netPc.a)
    ensures Settled(g, p).released == p.net.released
  {
    if p.netPc.Waiting? {
      TakeReleased(g.c, p.net, p.netPc.a.p);
    }
  }

  // ---- counters the GPU thread does not copy ------------------------------------------------

  /** A counter beyond those copied, for which no packet comes: in every block the output
      thread reads it is 0, as if nothing were missed, while all nm packets are. */
  lemma SilenceHidden<R>(g: Plant, work: (Header, seq<Word>) -> R, blank: R, s: State, es: seq<Event>, p: Pipe<R>,
                         x: nat, k: nat)
    requires ValidPlant(g) && IsBlank(g.c, s) && g.beamSlots <= x < g.c.nBors
    requires Possible(g, work, blank, Begin(g, blank, s), es) && p == After(g, work, blank, Begin(g, blank, s), es)
    requires forall a <- Arrivals(es) :: a.p.sid < g.c.nSources ==> Counter(g.c, a.p.sid) != x
    requires k < |p.delivered|
    ensures x < |p.delivered[k].header.missed| && p.delivered[k].header.missed[x] == 0
    ensures k < |p.net.released| && x < |p.net.released[k].header.missed|
    ensures p.net.released[k].header.missed[x] == g.c.nm
  {
    hide PipeInv, Run, Begin, Start, Possible, After, Arrivals, Settled, Shaped, Counter;
    BeginSettled(g, work, blank, s);
    SettledRuns(g, work, blank, Begin(g, blank, s), es);
    SettledReleased(g, work, blank, p);
    DeliveredIs(g, work, blank, p, k);
    SilentCounter(g.c, s, Arrivals(es), x, k);
  }

  lemma DeliveredIs<R>(g: Plant, work: (Header, seq<Word>) -> R, blank: R, p: Pipe<R>, k: nat)
    requires ValidPlant(g) && PipeInv(g, work, blank, p) && k < |p.delivered|
    ensures k < |p.net.released| && |p.net.released[k].header.missed| == g.c.nBors
    ensures p.delivered[k] == Final(g, work, p.net.released[k])
  {
  }

  lemma Prepend<R>(g: Plant, work: (Header, seq<Word>) -> R, blank: R, p: Pipe<R>, e: Event, q: Pipe<R>,
                   rest: seq<Event>)
    requires ValidPlant(g) && Sized(g, p) && Enabled(g, p, e) && q == Next(g, work, blank, p, e)
    requires Possible(g, work, blank, q, rest)
    ensures Possible(g, work, blank, p, [e] + rest)
    ensures After(g, work, blank, p, [e] + rest) == After(g, work, blank, q, rest)
  {
    hide Enabled, Next, Sized;
    assert ([e] + rest)[1..] == rest;
  }

  /** The way of a block, once the net thread has filled it. */
  function BlockThrough(): (es: seq<Event>)
    ensures Arrivals(es) == []
  {
    var es := [GpuSees, GpuCopies, GpuWorks, GpuPublishes, OutSees, OutReads];
    assert es[1..] == [GpuCopies, GpuWorks, GpuPublishes, OutSees, OutReads];
    assert es[2..] == [GpuWorks, GpuPublishes, OutSees, OutReads];
    es
  }

  /** The GPU and output threads are idle, at the same output slot, which is free. */
  predicate Idle<R>(g: Plant, p: Pipe<R>)
    requires ValidPlant(g) && Sized(g, p)
  {
    p.gpuPc.WaitIn? && p.outPc.WaitFull? && p.outIdx == p.curOut && !p.outFull[p.curOut]
  }

  lemma ThroughPossible<R>(g: Plant, work: (Header, seq<Word>) -> R, blank: R, p: Pipe<R>)
    requires ValidPlant(g) && Sized(g, p) && Idle(g, p) && p.inFull[p.curIn]
    ensures Possible(g, work, blank, p, BlockThrough())
    ensures |After(g, work, blank, p, BlockThrough()).delivered| == |p.delivered| + 1
  {
    hide CopyHeader, ZeroHeader, Shaped;
    var p1 := Next(g, work, blank, p, GpuSees);
    var p2 := Next(g, work, blank, p1, GpuCopies);
    var p3 := Next(g, work, blank, p2, GpuWorks);
    var p4 := Next(g, work, blank, p3, GpuPublishes);
    var p5 := Next(g, work, blank, p4, OutSees);
    var p6 := Next(g, work, blank, p5, OutReads);
    assert |p6.delivered| == |p.delivered| + 1;
    assert Enabled(g, p, GpuSees) && Enabled(g, p1, GpuCopies) && Enabled(g, p2, GpuWorks);
    assert Enabled(g, p3, GpuPublishes) && Enabled(g, p4, OutSees) && Enabled(g, p5, OutReads);
    hide *;
    Prepend(g, work, blank, p5, OutReads, p6, []);
    Prepend(g, work, blank, p4, OutSees, p5, [OutReads]);
    Prepend(g, work, blank, p3, GpuPublishes, p4, [OutSees, OutReads]);
    Prepend(g, work, blank, p2, GpuWorks, p3, [GpuPublishes, OutSees, OutReads]);
    Prepend(g, work, blank, p1, GpuCopies, p2, [GpuWorks, GpuPublishes, OutSees, OutReads]);
    Prepend(g, work, blank, p, GpuSees, p1, [GpuCopies, GpuWorks, GpuPublishes, OutSees, OutReads]);
  }

  /** It happens, at Green Bank where one of eight counters is copied and all packets have
      the same source: one packet fills a block, and the block the output thread reads
      has lost the losses of the other sub-spectra. */
  lemma LossesHidden<R>(g: Plant, work: (Header, seq<Word>) -> R, blank: R, s: State, a: Arrival, x: nat)
    requires ValidPlant(g) && IsBlank(g.c, s) && g.beamSlots <= x < g.c.nBors
    requires Nominal(g.c, a) && a.p.mcnt == 3 * (g.c.nm / 2) && Counter(g.c, a.p.sid) != x
    ensures var es := [NetPacket(a)] + BlockThrough();
            && Possible(g, work, blank, Begin(g, blank, s), es)
            && var p := After(g, work, blank, Begin(g, blank, s), es);
            && |p.delivered| == 1 && |p.net.released| >= 1
            && x < |p.delivered[0].header.missed| && p.delivered[0].header.missed[x] == 0
            && x < |p.net.released[0].header.missed| && p.net.released[0].header.missed[x] == g.c.nm
  {
    var b, es := Begin(g, blank, s), [NetPacket(a)] + BlockThrough();
    assert es[1..] == BlockThrough();
    assert Arrivals(es) == [a] by { assert [a] + [] == [a]; }
    FirstFilled(g, work, blank, s, a);
    hide *;
    var q := Next(g, work, blank, b, NetPacket(a));
    ThroughPossible(g, work, blank, q);
    Prepend(g, work, blank, b, NetPacket(a), q, BlockThrough());
    SilenceHidden(g, work, blank, s, es, After(g, work, blank, b, es), x, 0);
  }

  lemma FirstFilled<R>(g: Plant, work: (Header, seq<Word>) -> R, blank: R, s: State, a: Arrival)
    requires ValidPlant(g) && IsBlank(g.c, s) && Nominal(g.c, a) && a.p.mcnt == 3 * (g.c.nm / 2)
    ensures var b := Begin(g, blank, s);
            && Enabled(g, b, NetPacket(a))
            && var q := Next(g, work, blank, b, NetPacket(a));
            Idle(g, q) && q.inFull[q.curIn] && q.delivered == []
  {
    StartInv(g.c, s);
    Distances(g.c, Start(g.c, s), a.p.mcnt);
    DivIs(0, 0, g.c.nm);
    SlotSmall(0, g.c.nBlocks);
    hide Release, Shaped;
  }
}
