/** The three threads at work at once: packet assembler, GPU thread and output
    thread, joined by two rings of blocks whose only synchronisation is a
    free/filled flag on every block. Each event below is one access to shared
    state by one thread; a run is any interleaving of enabled events. */
module Pipeline {
  import opened Arith
  import opened Placement
  import opened Assembler

  /** Assembler constants, output ring size, and how many missed-packet counters
      the GPU thread copies. */
  datatype Plant = Plant(c: Config, outBlocks: nat, beamSlots: nat)

  predicate ValidPlant(g: Plant) {
    ValidConfig(g.c) && g.outBlocks >= 1
  }

  datatype OutHeader = OutHeader(mcnt: nat, chanId: nat, numChan: nat, sid: nat, sec: nat, nsec: nat, missed: seq<nat>)

  /** `R` is what spectroscopy leaves in an output block. */
  datatype OutBlock<R> = OutBlock(header: OutHeader, result: R)

  datatype NetPc = Ready | Waiting(a: Arrival)
  datatype GpuPc = WaitIn | WaitOut | Copied | Worked | Published
  datatype OutPc = WaitFull | Reading | Delivered | Cleared

  /** Shared rings, each thread's own variables, what the output thread has read,
      and how many blocks have been freed, published and drained so far. */
  datatype Pipe<R> = Pipe(
    net: State, netPc: NetPc,
    inFull: seq<bool>,
    gpuPc: GpuPc, curIn: nat, curOut: nat,
    out: seq<OutBlock<R>>, outFull: seq<bool>,
    outPc: OutPc, outIdx: nat,
    delivered: seq<OutBlock<R>>,
    freed: nat, published: nat, drained: nat)

  predicate Sized<R>(g: Plant, p: Pipe<R>)
    requires ValidPlant(g)
  {
    && Shaped(g.c, p.net)
    && |p.inFull| == g.c.nBlocks && p.curIn < g.c.nBlocks
    && |p.out| == |p.outFull| == g.outBlocks && p.curOut < g.outBlocks && p.outIdx < g.outBlocks
    && (forall i :: 0 <= i < g.outBlocks ==> |p.out[i].header.missed| == g.c.nBors)
  }

  /** The header copy of the GPU thread: counters beyond `beamSlots` are not copied. */
  function CopyHeader(g: Plant, was: OutHeader, h: Header): OutHeader
    requires |h.missed| == |was.missed| == g.c.nBors
  {
    OutHeader(h.mcnt, h.chanId, h.numChan, if g.c.layout.Fast? then h.sid else was.sid, h.sec, h.nsec,
              seq(g.c.nBors, i requires 0 <= i < g.c.nBors => if i < g.beamSlots then h.missed[i] else was.missed[i]))
  }

  function ZeroHeader(g: Plant): OutHeader {
    OutHeader(0, 0, 0, 0, 0, 0, seq(g.c.nBors, _ => 0))
  }

  datatype Event =
    | NetPacket(a: Arrival)   // process_packet up to the wait, or to its end
    | NetTakes                // the wait for a free block is over: the rest of process_packet
    | GpuSees                 // the wait for a filled input block is over
    | GpuCopies               // the wait for a free output block is over: header copy
    | GpuWorks                // spectroscopy of all parts of the block
    | GpuPublishes            // output block marked filled
    | GpuFrees                // input block marked free
    | OutSees                 // the wait for a filled output block is over
    | OutReads                // the block is written out
    | OutClears               // the block is zeroed
    | OutFrees                // the block is marked free

  predicate Enabled<R>(g: Plant, p: Pipe<R>, e: Event)
    requires ValidPlant(g) && Sized(g, p)
  {
    match e
    case NetPacket(a) => p.netPc.Ready? && Nominal(g.c, a)
    case NetTakes => p.netPc.Waiting? && Nominal(g.c, p.netPc.a) && !p.inFull[NextSlot(g.c, p.net)]
    case GpuSees => p.gpuPc.WaitIn? && p.inFull[p.curIn]
    case GpuCopies => p.gpuPc.WaitOut? && !p.outFull[p.curOut]
    case GpuWorks => p.gpuPc.Copied?
    case GpuPublishes => p.gpuPc.Worked?
    case GpuFrees => p.gpuPc.Published?
    case OutSees => p.outPc.WaitFull? && p.outFull[p.outIdx]
    case OutReads => p.outPc.Reading?
    case OutClears => p.outPc.Delivered?
    case OutFrees => p.outPc.Cleared?
  }

  function Next<R>(g: Plant, work: (Header, seq<Word>) -> R, blank: R, p: Pipe<R>, e: Event): (q: Pipe<R>)
    requires ValidPlant(g) && Sized(g, p) && Enabled(g, p, e)
    ensures Sized(g, q)
  {
    match e
    case NetPacket(a) =>
      if Classify(g.c, p.net, a.p.mcnt).Closing? then
        var t := Release(g.c, p.net, a.sec, a.nsec);
        p.(net := t, netPc := Waiting(a), inFull := p.inFull[BlockFor(g.c, p.net.mcntStart) := true])
      else p.(net := Step(g.c, p.net, a))
    case NetTakes =>
      p.(net := Store(g.c, Acquire(g.c, p.net, p.netPc.a.p), p.netPc.a.p), netPc := Ready)
    case GpuSees => p.(gpuPc := WaitOut)
    case GpuCopies =>
      var o := p.out[p.curOut];
      p.(out := p.out[p.curOut := o.(header := CopyHeader(g, o.header, p.net.headers[p.curIn]))], gpuPc := Copied)
    case GpuWorks =>
      var o := p.out[p.curOut];
      p.(out := p.out[p.curOut := o.(result := work(p.net.headers[p.curIn], p.net.blocks[p.curIn]))], gpuPc := Worked)
    case GpuPublishes =>
      p.(outFull := p.outFull[p.curOut := true], curOut := (p.curOut + 1) % g.outBlocks,
         published := p.published + 1, gpuPc := Published)
    case GpuFrees =>
      p.(inFull := p.inFull[p.curIn := false], curIn := (p.curIn + 1) % g.c.nBlocks, freed := p.freed + 1,
         gpuPc := WaitIn)
    case OutSees => p.(outPc := Reading)
    case OutReads => p.(delivered := p.delivered + [p.out[p.outIdx]], outPc := Delivered)
    case OutClears => p.(out := p.out[p.outIdx := OutBlock(ZeroHeader(g), blank)], outPc := Cleared)
    case OutFrees =>
      p.(outFull := p.outFull[p.outIdx := false], outIdx := (p.outIdx + 1) % g.outBlocks,
         drained := p.drained + 1, outPc := WaitFull)
  }

  /** All flags free, output blocks zeroed, the assembler holding its first two blocks. */
  function Begin<R>(g: Plant, blank: R, s: State): (p: Pipe<R>)
    requires ValidPlant(g) && IsBlank(g.c, s)
    ensures Sized(g, p)
  {
    Pipe(Start(g.c, s), Ready, seq(g.c.nBlocks, _ => false), WaitIn, 0, 0,
         seq(g.outBlocks, _ => OutBlock(ZeroHeader(g), blank)), seq(g.outBlocks, _ => false), WaitFull, 0, [], 0, 0, 0)
  }

  /** What the output thread should read for a block handed on by the assembler. */
  function Final<R>(g: Plant, work: (Header, seq<Word>) -> R, f: Fill): OutBlock<R>
    requires |f.header.missed| == g.c.nBors
  {
    OutBlock(CopyHeader(g, ZeroHeader(g), f.header), work(f.header, f.data))
  }

  // ---- the invariant ---------------------------------------------------------------

  /** The assembler is between packets, or waits for the slot after the current one. */
  ghost predicate NetOk<R>(g: Plant, p: Pipe<R>)
    requires ValidPlant(g)
  {
    && (forall k :: 0 <= k < |p.net.released| ==> |p.net.released[k].header.missed| == g.c.nBors)
    && match p.netPc
       case Ready => Inv(g.c, p.net)
       case Waiting(a) =>
         Closed(g.c, p.net) && Nominal(g.c, a) && p.net.mcntStart <= a.p.mcnt < p.net.mcntStart + g.c.nm
  }

  function Held(pc: NetPc): nat { if pc.Ready? then 2 else 1 }

  /** Blocks freed .. filled are full and as they were filled; the rest are free. */
  ghost predicate InRing<R>(g: Plant, p: Pipe<R>)
    requires ValidPlant(g) && Sized(g, p)
  {
    var n, f := g.c.nBlocks, |p.net.released|;
    && p.freed <= f && f + Held(p.netPc) <= p.freed + n
    && (forall k :: p.freed <= k < f ==>
          p.inFull[Slot(k, n)] && p.net.headers[Slot(k, n)] == p.net.released[k].header
          && p.net.blocks[Slot(k, n)] == p.net.released[k].data)
    && (forall k :: f <= k < p.freed + n ==> !p.inFull[Slot(k, n)])
  }

  /** Where the GPU thread is and what it has put into its output block so far. */
  ghost predicate GpuOk<R>(g: Plant, work: (Header, seq<Word>) -> R, blank: R, p: Pipe<R>)
    requires ValidPlant(g) && Sized(g, p) && NetOk(g, p)
  {
    && p.curIn == Slot(p.freed, g.c.nBlocks) && p.curOut == Slot(p.published, g.outBlocks)
    && p.published == p.freed + (if p.gpuPc.Published? then 1 else 0)
    && (!p.gpuPc.WaitIn? ==> p.freed < |p.net.released|)
    && (p.gpuPc.Copied? || p.gpuPc.Worked? ==> p.published < p.drained + g.outBlocks)
    && (p.gpuPc.Copied? ==>
          p.out[p.curOut] == OutBlock(CopyHeader(g, ZeroHeader(g), p.net.released[p.freed].header), blank))
    && (p.gpuPc.Worked? ==> p.out[p.curOut] == Final(g, work, p.net.released[p.freed]))
  }

  /** Output blocks drained .. published are full and final; the rest are free and zero. */
  ghost predicate OutRing<R>(g: Plant, work: (Header, seq<Word>) -> R, blank: R, p: Pipe<R>)
    requires ValidPlant(g) && Sized(g, p) && NetOk(g, p)
  {
    var m := g.outBlocks;
    && p.drained <= p.published <= p.drained + m
    && p.published <= |p.net.released|
    && (forall k :: p.drained <= k < p.published ==> p.outFull[Slot(k, m)])
    && (forall k :: p.published <= k < p.drained + m ==> !p.outFull[Slot(k, m)])
    && (forall k :: p.drained <= k < p.published && !(k == p.drained && p.outPc.Cleared?) ==>
          p.out[Slot(k, m)] == Final(g, work, p.net.released[k]))
    && (forall k :: p.published <= k < p.drained + m && !(k == p.published && (p.gpuPc.Copied? || p.gpuPc.Worked?)) ==>
          p.out[Slot(k, m)] == OutBlock(ZeroHeader(g), blank))
  }

  /** Where the output thread is and what it has read. */
  ghost predicate OutOk<R>(g: Plant, work: (Header, seq<Word>) -> R, blank: R, p: Pipe<R>)
    requires ValidPlant(g) && Sized(g, p) && NetOk(g, p)
  {
    && p.outIdx == Slot(p.drained, g.outBlocks)
    && (!p.outPc.WaitFull? ==> p.drained < p.published)
    && |p.delivered| == p.drained + (if p.outPc.Delivered? || p.outPc.Cleared? then 1 else 0)
    && |p.delivered| <= |p.net.released|
    && (forall k :: 0 <= k < |p.delivered| ==> p.delivered[k] == Final(g, work, p.net.released[k]))
    && (p.outPc.Cleared? ==> p.out[p.outIdx] == OutBlock(ZeroHeader(g), blank))
  }

  ghost predicate PipeInv<R>(g: Plant, work: (Header, seq<Word>) -> R, blank: R, p: Pipe<R>)
    requires ValidPlant(g)
  {
    && Sized(g, p) && NetOk(g, p) && InRing(g, p)
    && GpuOk(g, work, blank, p) && OutRing(g, work, blank, p) && OutOk(g, work, blank, p)
  }

  /** Positions less than a ring apart have different slots. */
  lemma Window(lo: nat, n: nat)
    requires n > 0
    ensures forall j, k :: lo <= j < lo + n && lo <= k < lo + n && Slot(j, n) == Slot(k, n) ==> j == k
  {
    forall j, k | lo <= j < lo + n && lo <= k < lo + n && j < k ensures Slot(j, n) != Slot(k, n) {
      SlotDistinct(j, k, n);
    }
  }

  lemma BeginInv<R>(g: Plant, work: (Header, seq<Word>) -> R, blank: R, s: State)
    requires ValidPlant(g) && IsBlank(g.c, s)
    ensures PipeInv(g, work, blank, Begin(g, blank, s))
  {
    StartInv(g.c, s);
    SlotSmall(0, g.c.nBlocks);
    SlotSmall(0, g.outBlocks);
  }

  /** The slots the assembler holds are those of the next two blocks to be filled. */
  lemma HeldSlots<R>(g: Plant, p: Pipe<R>)
    requires ValidPlant(g) && Sized(g, p) && NetOk(g, p)
    ensures p.net.blockI == Slot(|p.net.released|, g.c.nBlocks)
    ensures NextSlot(g.c, p.net) == Slot(|p.net.released| + 1, g.c.nBlocks)
  {
    SlotNext(|p.net.released|, g.c.nBlocks);
  }

  /** A change of the assembler that hands nothing on and leaves the filled slots
      alone keeps the rest of the invariant. */
  lemma NetFrame<R>(g: Plant, work: (Header, seq<Word>) -> R, blank: R, p: Pipe<R>, t: State, pc: NetPc)
    requires ValidPlant(g) && PipeInv(g, work, blank, p)
    requires Shaped(g.c, t) && t.released == p.net.released
    requires NetOk(g, p.(net := t, netPc := pc))
    requires |t.released| + Held(pc) <= p.freed + g.c.nBlocks
    requires forall k :: p.freed <= k < |t.released| ==> Untouched(g.c, p.net, t, Slot(k, g.c.nBlocks))
    ensures PipeInv(g, work, blank, p.(net := t, netPc := pc))
  {
    hide Inv, Closed, Final, ZeroHeader, CopyHeader;
    var q := p.(net := t, netPc := pc);
    assert InRing(g, q) by {
      hide GpuOk, OutRing, OutOk;
      InFrame(g, p, t, pc);
    }
    assert GpuOk(g, work, blank, q) by { hide InRing, OutRing, OutOk, Shaped; }
    assert OutRing(g, work, blank, q) by { hide InRing, GpuOk, OutOk, Shaped; }
    assert OutOk(g, work, blank, q) by { hide InRing, GpuOk, OutRing, Shaped; }
    hide InRing, GpuOk, OutRing, OutOk;
  }

  lemma InFrame<R>(g: Plant, p: Pipe<R>, t: State, pc: NetPc)
    requires ValidPlant(g) && Sized(g, p) && InRing(g, p)
    requires Shaped(g.c, t) && t.released == p.net.released
    requires |t.released| + Held(pc) <= p.freed + g.c.nBlocks
    requires forall k :: p.freed <= k < |t.released| ==> Untouched(g.c, p.net, t, Slot(k, g.c.nBlocks))
    ensures InRing(g, p.(net := t, netPc := pc))
  {
    forall k | p.freed <= k < |t.released|
      ensures t.headers[Slot(k, g.c.nBlocks)] == p.net.headers[Slot(k, g.c.nBlocks)]
      ensures t.blocks[Slot(k, g.c.nBlocks)] == p.net.blocks[Slot(k, g.c.nBlocks)]
    {
      assert Untouched(g.c, p.net, t, Slot(k, g.c.nBlocks));
    }
  }

  /** A packet that closes no block: only held slots are written. */
  lemma NetStays<R>(g: Plant, work: (Header, seq<Word>) -> R, blank: R, p: Pipe<R>, a: Arrival)
    requires ValidPlant(g) && PipeInv(g, work, blank, p) && Enabled(g, p, NetPacket(a))
    requires !Classify(g.c, p.net, a.p.mcnt).Closing?
    ensures PipeInv(g, work, blank, Next(g, work, blank, p, NetPacket(a)))
  {
    hide Step, Classify, Closed, Shaped, GpuOk, OutRing, OutOk, Untouched;
    var n, t := g.c.nBlocks, Step(g.c, p.net, a);
    StepInv(g.c, p.net, a);
    StaysReleased(g.c, p.net, a);
    HeldSlots(g, p);
    Window(p.freed, n);
    forall k | p.freed <= k < |t.released| ensures Untouched(g.c, p.net, t, Slot(k, n)) {
      StepWritesHeldSlots(g.c, p.net, a, Slot(k, n));
    }
    NetFrame(g, work, blank, p, t, Ready);
  }

  lemma StaysReleased(c: Config, s: State, a: Arrival)
    requires ValidConfig(c) && Inv(c, s) && Nominal(c, a)
    requires !Classify(c, s, a.p.mcnt).Closing?
    ensures Step(c, s, a).released == s.released
  {
  }

  /** A packet that closes the current block: the block is handed on as it is. */
  lemma NetCloses<R>(g: Plant, work: (Header, seq<Word>) -> R, blank: R, p: Pipe<R>, a: Arrival)
    requires ValidPlant(g) && PipeInv(g, work, blank, p) && Enabled(g, p, NetPacket(a))
    requires Classify(g.c, p.net, a.p.mcnt).Closing?
    ensures PipeInv(g, work, blank, Next(g, work, blank, p, NetPacket(a)))
  {
    hide Release, Classify, Closed, Shaped, Final, ZeroHeader, CopyHeader, BlockFor;
    var t, q := Release(g.c, p.net, a.sec, a.nsec), Next(g, work, blank, p, NetPacket(a));
    CloseNet(g, p, a);
    ReleaseEffect(g.c, p.net, a.sec, a.nsec);
    HeldSlots(g, p);
    assert InRing(g, q) by {
      hide GpuOk, OutRing, OutOk;
      Window(p.freed, g.c.nBlocks);
    }
    assert GpuOk(g, work, blank, q) by { hide InRing, OutRing, OutOk; }
    assert OutRing(g, work, blank, q) by { hide InRing, GpuOk, OutOk; }
    assert OutOk(g, work, blank, q) by { hide InRing, GpuOk, OutRing; }
    hide InRing, GpuOk, OutRing, OutOk;
  }

  lemma CloseNet<R>(g: Plant, p: Pipe<R>, a: Arrival)
    requires ValidPlant(g) && Sized(g, p) && NetOk(g, p) && Enabled(g, p, NetPacket(a))
    requires Classify(g.c, p.net, a.p.mcnt).Closing?
    ensures NetOk(g, p.(net := Release(g.c, p.net, a.sec, a.nsec), netPc := Waiting(a)))
  {
    hide BlockFor, BlockStart, BlockNo;
    Distances(g.c, p.net, a.p.mcnt);
    ReleaseClosed(g.c, p.net, a.sec, a.nsec, a.p.mcnt);
    ReleaseEffect(g.c, p.net, a.sec, a.nsec);
    hide Release, Closed;
  }

  lemma ReleaseEffect(c: Config, s: State, sec: nat, nsec: nat)
    requires ValidConfig(c) && Inv(c, s)
    ensures var t, i := Release(c, s, sec, nsec), s.blockI;
            && BlockFor(c, s.mcntStart) == i
            && t.released == s.released + [Fill(i, t.headers[i], t.blocks[i])]
            && t.blocks == s.blocks
            && forall j :: 0 <= j < c.nBlocks && j != i ==> t.headers[j] == s.headers[j]
  {
  }

  /** The wait is over: the newly acquired slot is labelled and the packet stored. */
  lemma NetTakesSlot<R>(g: Plant, work: (Header, seq<Word>) -> R, blank: R, p: Pipe<R>)
    requires ValidPlant(g) && PipeInv(g, work, blank, p) && Enabled(g, p, NetTakes)
    ensures PipeInv(g, work, blank, Next(g, work, blank, p, NetTakes))
  {
    hide Store, Acquire, Closed, Shaped, GpuOk, OutRing, OutOk, Untouched;
    var n, q := g.c.nBlocks, p.netPc.a.p;
    var t := Store(g.c, Acquire(g.c, p.net, q), q);
    AcquireInv(g.c, p.net, q);
    StoreInv(g.c, Acquire(g.c, p.net, q), q);
    HeldSlots(g, p);
    Window(p.freed, n);
    SlotWrap(p.freed, n);
    TakeReleased(g.c, p.net, q);
    forall k | p.freed <= k < |t.released| ensures Untouched(g.c, p.net, t, Slot(k, n)) {
      TakeWritesHeldSlots(g.c, p.net, q, Slot(k, n));
    }
    NetFrame(g, work, blank, p, t, Ready);
  }

  lemma TakeReleased(c: Config, s: State, q: Packet)
    requires ValidConfig(c) && Shaped(c, s) && |q.payload| == PayloadWords(c.layout)
    ensures Store(c, Acquire(c, s, q), q).released == s.released
  {
  }

  lemma TakeWritesHeldSlots(c: Config, s: State, q: Packet, i: nat)
    requires ValidConfig(c) && Closed(c, s)
    requires q.mcnt < TWO56 && s.mcntStart <= q.mcnt < s.mcntStart + c.nm && |q.payload| == PayloadWords(c.layout)
    requires i < c.nBlocks && i != s.blockI && i != NextSlot(c, s)
    ensures Untouched(c, s, Store(c, Acquire(c, s, q), q), i)
  {
    hide BlockStart, BlockFor;
    Distances(c, s, q.mcnt);
    AcquireInv(c, s, q);
  }

  // The steps of the GPU thread, one by one.

  lemma GpuSeesStep<R>(g: Plant, work: (Header, seq<Word>) -> R, blank: R, p: Pipe<R>)
    requires ValidPlant(g) && PipeInv(g, work, blank, p) && Enabled(g, p, GpuSees)
    ensures PipeInv(g, work, blank, Next(g, work, blank, p, GpuSees))
  {
    hide Inv, Closed, Shaped, CopyHeader, ZeroHeader, Final;
    assert p.freed < p.freed + g.c.nBlocks;
  }

  lemma GpuCopiesStep<R>(g: Plant, work: (Header, seq<Word>) -> R, blank: R, p: Pipe<R>)
    requires ValidPlant(g) && PipeInv(g, work, blank, p) && Enabled(g, p, GpuCopies)
    ensures PipeInv(g, work, blank, Next(g, work, blank, p, GpuCopies))
  {
    hide Inv, Closed, Final, Slot;
    Window(p.drained, g.outBlocks);
    SlotWrap(p.drained, g.outBlocks);
    assert p.drained < p.published ==> p.outFull[Slot(p.drained, g.outBlocks)];
  }

  lemma GpuWorksStep<R>(g: Plant, work: (Header, seq<Word>) -> R, blank: R, p: Pipe<R>)
    requires ValidPlant(g) && PipeInv(g, work, blank, p) && Enabled(g, p, GpuWorks)
    ensures PipeInv(g, work, blank, Next(g, work, blank, p, GpuWorks))
  {
    hide Inv, Closed, Shaped, CopyHeader, ZeroHeader;
    Window(p.drained, g.outBlocks);
  }

  lemma GpuPublishesStep<R>(g: Plant, work: (Header, seq<Word>) -> R, blank: R, p: Pipe<R>)
    requires ValidPlant(g) && PipeInv(g, work, blank, p) && Enabled(g, p, GpuPublishes)
    ensures PipeInv(g, work, blank, Next(g, work, blank, p, GpuPublishes))
  {
    hide Inv, Closed, Shaped, CopyHeader, ZeroHeader, Final;
    Window(p.drained, g.outBlocks);
    SlotNext(p.published, g.outBlocks);
  }

  lemma GpuFreesStep<R>(g: Plant, work: (Header, seq<Word>) -> R, blank: R, p: Pipe<R>)
    requires ValidPlant(g) && PipeInv(g, work, blank, p) && Enabled(g, p, GpuFrees)
    ensures PipeInv(g, work, blank, Next(g, work, blank, p, GpuFrees))
  {
    hide Inv, Closed, Shaped, CopyHeader, ZeroHeader, Final;
    Window(p.freed, g.c.nBlocks);
    SlotNext(p.freed, g.c.nBlocks);
    SlotWrap(p.freed, g.c.nBlocks);
    var q := Next(g, work, blank, p, GpuFrees);
    assert InRing(g, q) by { hide OutRing, OutOk; }
    assert OutRing(g, work, blank, q) && OutOk(g, work, blank, q) by { hide InRing; }
    hide InRing, OutRing, OutOk;
  }

  // The steps of the output thread.

  lemma OutSeesStep<R>(g: Plant, work: (Header, seq<Word>) -> R, blank: R, p: Pipe<R>)
    requires ValidPlant(g) && PipeInv(g, work, blank, p) && Enabled(g, p, OutSees)
    ensures PipeInv(g, work, blank, Next(g, work, blank, p, OutSees))
  {
    hide Inv, Closed, Shaped, CopyHeader, ZeroHeader, Final;
    assert p.drained < p.drained + g.outBlocks;
  }

  lemma OutReadsStep<R>(g: Plant, work: (Header, seq<Word>) -> R, blank: R, p: Pipe<R>)
    requires ValidPlant(g) && PipeInv(g, work, blank, p) && Enabled(g, p, OutReads)
    ensures PipeInv(g, work, blank, Next(g, work, blank, p, OutReads))
  {
    hide Inv, Closed, Shaped, CopyHeader, ZeroHeader, Final;
  }

  lemma OutClearsStep<R>(g: Plant, work: (Header, seq<Word>) -> R, blank: R, p: Pipe<R>)
    requires ValidPlant(g) && PipeInv(g, work, blank, p) && Enabled(g, p, OutClears)
    ensures PipeInv(g, work, blank, Next(g, work, blank, p, OutClears))
  {
    hide Inv, Closed, Shaped, CopyHeader, Final;
    Window(p.drained, g.outBlocks);
  }

  lemma OutFreesStep<R>(g: Plant, work: (Header, seq<Word>) -> R, blank: R, p: Pipe<R>)
    requires ValidPlant(g) && PipeInv(g, work, blank, p) && Enabled(g, p, OutFrees)
    ensures PipeInv(g, work, blank, Next(g, work, blank, p, OutFrees))
  {
    hide Inv, Closed, Shaped, CopyHeader, ZeroHeader, Final, Slot;
    Window(p.drained, g.outBlocks);
    SlotNext(p.drained, g.outBlocks);
    SlotWrap(p.drained, g.outBlocks);
    var q := Next(g, work, blank, p, OutFrees);
    assert OutRing(g, work, blank, q) by { hide InRing, GpuOk; }
    assert OutOk(g, work, blank, q) by { hide InRing, GpuOk, OutRing; }
    hide OutRing, OutOk;
  }

  /** Every enabled event of every thread keeps the invariant. */
  lemma NextInv<R>(g: Plant, work: (Header, seq<Word>) -> R, blank: R, p: Pipe<R>, e: Event)
    requires ValidPlant(g) && PipeInv(g, work, blank, p) && Enabled(g, p, e)
    ensures PipeInv(g, work, blank, Next(g, work, blank, p, e))
  {
    hide PipeInv, Next;
    match e
    case NetPacket(a) =>
      if Classify(g.c, p.net, a.p.mcnt).Closing? {
        NetCloses(g, work, blank, p, a);
      } else {
        NetStays(g, work, blank, p, a);
      }
    case NetTakes => NetTakesSlot(g, work, blank, p);
    case GpuSees => GpuSeesStep(g, work, blank, p);
    case GpuCopies => GpuCopiesStep(g, work, blank, p);
    case GpuWorks => GpuWorksStep(g, work, blank, p);
    case GpuPublishes => GpuPublishesStep(g, work, blank, p);
    case GpuFrees => GpuFreesStep(g, work, blank, p);
    case OutSees => OutSeesStep(g, work, blank, p);
    case OutReads => OutReadsStep(g, work, blank, p);
    case OutClears => OutClearsStep(g, work, blank, p);
    case OutFrees => OutFreesStep(g, work, blank, p);
  }

  /** `es` is a possible run of the three threads from `p`. */
  ghost predicate Possible<R>(g: Plant, work: (Header, seq<Word>) -> R, blank: R, p: Pipe<R>, es: seq<Event>)
    requires ValidPlant(g) && Sized(g, p)
    decreases |es|
  {
    es == [] || (Enabled(g, p, es[0]) && Possible(g, work, blank, Next(g, work, blank, p, es[0]), es[1..]))
  }

  ghost function After<R>(g: Plant, work: (Header, seq<Word>) -> R, blank: R, p: Pipe<R>, es: seq<Event>): (q: Pipe<R>)
    requires ValidPlant(g) && Sized(g, p) && Possible(g, work, blank, p, es)
    ensures Sized(g, q)
    decreases |es|
  {
    if es == [] then p else After(g, work, blank, Next(g, work, blank, p, es[0]), es[1..])
  }

  lemma {:induction false} AfterInv<R>(g: Plant, work: (Header, seq<Word>) -> R, blank: R, p: Pipe<R>, es: seq<Event>)
    requires ValidPlant(g) && PipeInv(g, work, blank, p) && Possible(g, work, blank, p, es)
    ensures PipeInv(g, work, blank, After(g, work, blank, p, es))
    decreases |es|
  {
    if es != [] {
      NextInv(g, work, blank, p, es[0]);
      AfterInv(g, work, blank, Next(g, work, blank, p, es[0]), es[1..]);
    }
  }

  /** First in, first out, under every interleaving: what the output thread has
      read is, block for block, what the assembler has marked filled, with the
      header fields it had then and the result of spectroscopy on the data it had
      then. No block is lost, repeated, reordered or overwritten while filled,
      whatever the packets, through any number of ring wraps and resets. */
  lemma Fifo<R>(g: Plant, work: (Header, seq<Word>) -> R, blank: R, s: State, es: seq<Event>)
    requires ValidPlant(g) && IsBlank(g.c, s)
    requires Possible(g, work, blank, Begin(g, blank, s), es)
    ensures var p := After(g, work, blank, Begin(g, blank, s), es);
            && |p.delivered| <= |p.net.released|
            && forall k :: 0 <= k < |p.delivered| ==>
                 var d, f := p.delivered[k], p.net.released[k];
                 && d.header.mcnt == f.header.mcnt && d.header.chanId == f.header.chanId
                 && d.header.numChan == f.header.numChan
                 && d.header.sec == f.header.sec && d.header.nsec == f.header.nsec
                 && (g.c.layout.Fast? ==> d.header.sid == f.header.sid)
                 && d.result == work(f.header, f.data)
  {
    BeginInv(g, work, blank, s);
    AfterInv(g, work, blank, Begin(g, blank, s), es);
  }

  /** The missed-packet counters arrive unchanged exactly where the copy covers
      them all or what it leaves out is zero. With one counter copied and eight
      in use, as for DiBAS, the losses of seven sub-spectra are not passed on. */
  lemma MissedArrive<R>(g: Plant, work: (Header, seq<Word>) -> R, blank: R, s: State, es: seq<Event>, k: nat)
    requires ValidPlant(g) && IsBlank(g.c, s)
    requires Possible(g, work, blank, Begin(g, blank, s), es)
    requires k < |After(g, work, blank, Begin(g, blank, s), es).delivered|
    ensures var p := After(g, work, blank, Begin(g, blank, s), es);
            && k < |p.net.released|
            && var d, f := p.delivered[k].header.missed, p.net.released[k].header.missed;
            && |f| == g.c.nBors
            && (d == f <==> forall i :: g.beamSlots <= i < g.c.nBors ==> f[i] == 0)
  {
    BeginInv(g, work, blank, s);
    AfterInv(g, work, blank, Begin(g, blank, s), es);
    var p := After(g, work, blank, Begin(g, blank, s), es);
    var d, f := p.delivered[k].header.missed, p.net.released[k].header.missed;
    assert |f| == g.c.nBors && |d| == g.c.nBors;
    assert forall i :: 0 <= i < g.c.nBors ==> d[i] == if i < g.beamSlots then f[i] else 0;
    if d == f {
      assert forall i :: g.beamSlots <= i < g.c.nBors ==> f[i] == d[i] == 0;
    }
  }

  // ---- progress ----------------------------------------------------------------------

  predicate NetBlocked<R>(g: Plant, p: Pipe<R>)
    requires ValidPlant(g) && Sized(g, p)
  {
    p.netPc.Waiting? && p.inFull[NextSlot(g.c, p.net)]
  }

  predicate GpuBlocked<R>(g: Plant, p: Pipe<R>)
    requires ValidPlant(g) && Sized(g, p)
  {
    (p.gpuPc.WaitIn? && !p.inFull[p.curIn]) || (p.gpuPc.WaitOut? && p.outFull[p.curOut])
  }

  predicate OutBlocked<R>(g: Plant, p: Pipe<R>)
    requires ValidPlant(g) && Sized(g, p)
  {
    p.outPc.WaitFull? && !p.outFull[p.outIdx]
  }

  /** The events of the GPU and output threads, in the order of each thread. */
  function GpuEvent(pc: GpuPc): Event {
    match pc
    case WaitIn => GpuSees
    case WaitOut => GpuCopies
    case Copied => GpuWorks
    case Worked => GpuPublishes
    case Published => GpuFrees
  }

  function OutEvent(pc: OutPc): Event {
    match pc
    case WaitFull => OutSees
    case Reading => OutReads
    case Delivered => OutClears
    case Cleared => OutFrees
  }

  /** No reachable state has all three threads blocked on flags: the net thread takes any
      packet when it is ready for one, and while it waits for a free block it can go on as
      soon as that block is free, and until then the GPU thread or the output thread can
      move, for every ring size. */
  lemma Progress<R>(g: Plant, work: (Header, seq<Word>) -> R, blank: R, p: Pipe<R>)
    requires ValidPlant(g) && PipeInv(g, work, blank, p)
    ensures NetBlocked(g, p) ==> !GpuBlocked(g, p) || !OutBlocked(g, p)
    ensures p.netPc.Ready? ==> forall a :: Nominal(g.c, a) ==> Enabled(g, p, NetPacket(a))
    ensures p.netPc.Waiting? ==> (Enabled(g, p, NetTakes) <==> !NetBlocked(g, p))
    ensures p.netPc.Waiting? ==>
              Enabled(g, p, NetTakes) || Enabled(g, p, GpuEvent(p.gpuPc)) || Enabled(g, p, OutEvent(p.outPc))
    ensures !GpuBlocked(g, p) <==> Enabled(g, p, GpuEvent(p.gpuPc))
    ensures !OutBlocked(g, p) <==> Enabled(g, p, OutEvent(p.outPc))
  {
    hide Inv, Closed, Shaped, CopyHeader, ZeroHeader, Final;
    SlotWrap(p.drained, g.outBlocks);
    assert p.drained == p.published ==> !p.outFull[Slot(p.published, g.outBlocks)];
    if NetBlocked(g, p) && GpuBlocked(g, p) {
      assert p.freed < |p.net.released| by {
        if p.freed == |p.net.released| {
          FreeAhead(g, p);
        }
      }
      assert p.inFull[Slot(p.freed, g.c.nBlocks)];
    }
  }

  /** With nothing in flight the next slot is free. */
  lemma FreeAhead<R>(g: Plant, p: Pipe<R>)
    requires ValidPlant(g) && Sized(g, p) && NetOk(g, p) && InRing(g, p)
    requires p.freed == |p.net.released|
    ensures !p.inFull[NextSlot(g.c, p.net)]
  {
    HeldSlots(g, p);
    assert !p.inFull[Slot(p.freed + 1, g.c.nBlocks)];
  }

  function GpuDone(pc: GpuPc): nat {
    match pc
    case WaitIn => 0
    case WaitOut => 1
    case Copied => 2
    case Worked => 3
    case Published => 4
  }

  function OutDone(pc: OutPc): nat {
    match pc
    case WaitFull => 0
    case Reading => 1
    case Delivered => 2
    case Cleared => 3
  }

  /** Events the GPU and output threads still have to do for the blocks filled so far. */
  function Backlog<R>(p: Pipe<R>): int {
    5 * (|p.net.released| - p.freed) - GpuDone(p.gpuPc) + 4 * (|p.net.released| - p.drained) - OutDone(p.outPc)
  }

  /** The backlog is never negative and never more than the two rings hold, each event of
      the GPU and output threads takes one off it, and without one the net thread is not
      blocked. */
  lemma BacklogFalls<R>(g: Plant, work: (Header, seq<Word>) -> R, blank: R, p: Pipe<R>, e: Event)
    requires ValidPlant(g) && PipeInv(g, work, blank, p) && Enabled(g, p, e)
    ensures 0 <= Backlog(p) <= 9 * g.c.nBlocks + 4 * g.outBlocks
    ensures !e.NetPacket? && !e.NetTakes? ==> Backlog(Next(g, work, blank, p, e)) == Backlog(p) - 1
    ensures NetBlocked(g, p) ==> Backlog(p) > 0
  {
    hide Inv, Closed, Shaped, CopyHeader, ZeroHeader, Final, Slot;
    if p.freed == |p.net.released| {
      FreeAhead(g, p);
    }
  }

  predicate OthersOnly(es: seq<Event>) {
    forall e <- es :: !e.NetPacket? && !e.NetTakes?
  }

  /** Every wait of the net thread ends. Whatever the GPU and output threads do while it
      waits, they do at most `9 * nBlocks + 4 * outBlocks` events, and when none of theirs
      is possible any more the net thread goes on. */
  lemma {:induction false} WaitEnds<R>(g: Plant, work: (Header, seq<Word>) -> R, blank: R, p: Pipe<R>, es: seq<Event>)
    requires ValidPlant(g) && PipeInv(g, work, blank, p) && Possible(g, work, blank, p, es) && OthersOnly(es)
    requires p.netPc.Waiting?
    ensures |es| <= 9 * g.c.nBlocks + 4 * g.outBlocks
    ensures var q := After(g, work, blank, p, es);
            && q.netPc == p.netPc && 0 <= Backlog(q) && |es| == Backlog(p) - Backlog(q)
            && (Enabled(g, q, NetTakes) || Enabled(g, q, GpuEvent(q.gpuPc)) || Enabled(g, q, OutEvent(q.outPc)))
            && (|es| == Backlog(p) ==> Enabled(g, q, NetTakes))
    decreases |es|
  {
    hide InRing, GpuOk, OutRing, OutOk, NetOk, Shaped, Next, Enabled, Backlog;
    Progress(g, work, blank, p);
    BacklogBounds(g, work, blank, p);
    if es != [] {
      var q := Next(g, work, blank, p, es[0]);
      assert es[0] in es && forall e <- es[1..] :: e in es;
      BacklogFalls(g, work, blank, p, es[0]);
      StillWaiting(g, work, blank, p, es[0]);
      NextInv(g, work, blank, p, es[0]);
      WaitEnds(g, work, blank, q, es[1..]);
    }
  }

  lemma StillWaiting<R>(g: Plant, work: (Header, seq<Word>) -> R, blank: R, p: Pipe<R>, e: Event)
    requires ValidPlant(g) && Sized(g, p) && Enabled(g, p, e) && !e.NetPacket? && !e.NetTakes?
    ensures Next(g, work, blank, p, e).netPc == p.netPc
  {
  }

  lemma BacklogBounds<R>(g: Plant, work: (Header, seq<Word>) -> R, blank: R, p: Pipe<R>)
    requires ValidPlant(g) && PipeInv(g, work, blank, p)
    ensures 0 <= Backlog(p) <= 9 * g.c.nBlocks + 4 * g.outBlocks
    ensures NetBlocked(g, p) ==> Backlog(p) > 0
  {
    hide Inv, Closed, Shaped, CopyHeader, ZeroHeader, Final, Slot;
    if p.freed == |p.net.released| {
      FreeAhead(g, p);
    }
  }
}
