/** From packets on the wire to rows on disk: the three threads with hit detection as the
    work of the second and the ETFITS writer as the work of the third. */
module WireToFile {
  import opened Arith
  import opened Placement
  import Asm = Assembler
  import Delivery
  import Pipe = Pipeline
  import EndToEnd
  import opened Spectrum
  import opened Labels
  import opened Detector
  import opened HitTables
  import opened Etfits
  import opened FileHistory

  /** What the GPU thread works with: order of the spectra, fine channels, smoothing radius,
      threshold, most hits handed over, and the FFT output for a beam or sub-spectrum. */
  datatype Setup = Setup(order: Order, nFine: nat, smooth: nat, thresh: real, maxHits: nat,
                         fft: (Asm.Header, seq<Word>, nat) -> seq<Complex>)

  ghost predicate ValidSetup(u: Setup) {
    && ValidOrder(u.order) && u.smooth >= 1 && 2 * u.smooth <= u.nFine - 1
    && forall h, data, bors :: |u.fft(h, data, bors)| % u.nFine == 0
  }

  /** The hits of a beam or sub-spectrum. */
  ghost function HitsIn(u: Setup, h: Asm.Header, data: seq<Word>, bors: nat): (hits: seq<Hit>)
    requires ValidSetup(u)
    ensures |hits| <= u.maxHits
  {
    Detected(u.order, bors, PowersOf(u.fft(h, data, bors)), u.nFine, u.smooth, u.thresh, u.maxHits)
  }

  /** The GPU thread's work on a block. */
  ghost function AllHits(u: Setup, nBors: nat, h: Asm.Header, data: seq<Word>): (hits: seq<seq<Hit>>)
    requires ValidSetup(u)
    ensures |hits| == nBors
    ensures forall bors :: 0 <= bors < nBors ==> hits[bors] == HitsIn(u, h, data, bors)
  {
    seq(nBors, bors requires 0 <= bors < nBors => HitsIn(u, h, data, bors))
  }

  ghost function Work(u: Setup, nBors: nat): (Asm.Header, seq<Word>) -> seq<seq<Hit>>
    requires ValidSetup(u)
  {
    (h: Asm.Header, data: seq<Word>) => AllHits(u, nBors, h, data)
  }

  /** What the output thread learns besides a block: about the observation, and whether the
      file has reached its size. */
  datatype Said = Said(obs: Obs, rolls: bool)

  /** The turns of its loop, one for each block it reads. */
  function Turns(delivered: seq<Pipe.OutBlock<seq<seq<Hit>>>>, said: seq<Said>): (es: seq<Event>)
    requires |said| == |delivered|
    ensures |es| == |delivered|
  {
    seq(|delivered|, k requires 0 <= k < |delivered| => TurnOf(delivered[k], said[k]))
  }

  function TurnOf(d: Pipe.OutBlock<seq<seq<Hit>>>, said: Said): Event {
    Event(said.obs, OutBlock(d.header.numChan, d.header.sid, d.result, d.header.missed), said.rolls)
  }

  /** Sizes of the output ring, the writer and the work fit each other. */
  ghost predicate Fit(g: Pipe.Plant, u: Setup, f: Form) {
    && Pipe.ValidPlant(g) && ValidSetup(u) && ValidForm(f)
    && f.nBors == g.c.nBors && u.maxHits <= f.maxHits && !f.site.FastSite?
  }

  lemma TurnsValid(g: Pipe.Plant, u: Setup, f: Form, blank: seq<seq<Hit>>, p: Pipe.Pipe<seq<seq<Hit>>>, said: seq<Said>)
    requires Fit(g, u, f) && Pipe.PipeInv(g, Work(u, f.nBors), blank, p) && |said| == |p.delivered|
    ensures AllValid(f, Turns(p.delivered, said))
  {
    hide Pipe.PipeInv, HitsIn;
    forall e <- Turns(p.delivered, said) ensures ValidBlock(f, e.block) {
      var k :| 0 <= k < |p.delivered| && e == TurnOf(p.delivered[k], said[k]);
      EndToEnd.DeliveredIs(g, Work(u, f.nBors), blank, p, k);
    }
  }

  // ---- where a block's tables are -----------------------------------------------------------

  lemma {:induction false} WrittenSplit(f: Form, s: seq<Event>, t: seq<Event>)
    ensures WrittenBlocks(f, s + t) == WrittenBlocks(f, s) + WrittenBlocks(f, t)
    decreases |t|
  {
    hide Writes;
    if t == [] {
      assert s + t == s;
    } else {
      WrittenSplit(f, s, Front(t));
      assert Front(s + t) == s + Front(t);
    }
  }

  /** The tables of the k-th block follow those of all blocks written before it. */
  lemma TablesOfBlock(f: Form, es: seq<Event>, k: nat, x: nat)
    requires AllValid(f, es) && k < |es| && Writes(f, es[k]) && x < Tables(f)
    ensures AllBlocksValid(f, WrittenBlocks(f, es)) && ValidBlock(f, es[k].block)
    ensures var all, at := AllTables(f, WrittenBlocks(f, es)), |WrittenBlocks(f, es[..k])| * Tables(f) + x;
            0 <= at < |all| && all[at] == TablesOf(f, es[k].block, Tables(f))[x]
  {
    hide *;
    var b, before, after := es[k].block, WrittenBlocks(f, es[..k]), WrittenBlocks(f, es[k + 1..]);
    TablesInOrder(f, es);
    WrittenAround(f, es, k);
    TablesAround(f, before, b, after, x);
  }

  lemma WrittenAround(f: Form, es: seq<Event>, k: nat)
    requires k < |es| && Writes(f, es[k])
    ensures WrittenBlocks(f, es) == (WrittenBlocks(f, es[..k]) + [es[k].block]) + WrittenBlocks(f, es[k + 1..])
  {
    hide Writes, WrittenBlocks;
    assert es == (es[..k] + [es[k]]) + es[k + 1..];
    WrittenSplit(f, es[..k] + [es[k]], es[k + 1..]);
    WrittenSplit(f, es[..k], [es[k]]);
    WrittenOne(f, es[k]);
  }

  lemma TablesAround(f: Form, before: seq<OutBlock>, b: OutBlock, after: seq<OutBlock>, x: nat)
    requires AllBlocksValid(f, (before + [b]) + after) && x < Tables(f)
    ensures ValidBlock(f, b)
    ensures var all, at := AllTables(f, (before + [b]) + after), |before| * Tables(f) + x;
            0 <= at < |all| && all[at] == TablesOf(f, b, Tables(f))[x]
  {
    hide TablesOf, Tables, AllTables, ValidBlock;
    PartsValid(f, before, b, after);
    AllTablesAdd(f, before, [b]);
    AllTablesAdd(f, before + [b], after);
    OneBlock(f, b);
    TableCount(f, before);
    MulMono(0, |before|, Tables(f));
  }

  lemma PartsValid(f: Form, before: seq<OutBlock>, b: OutBlock, after: seq<OutBlock>)
    requires AllBlocksValid(f, (before + [b]) + after)
    ensures AllBlocksValid(f, before) && AllBlocksValid(f, [b]) && AllBlocksValid(f, after)
  {
    hide ValidBlock;
    var bs := (before + [b]) + after;
    assert b in bs;
    assert forall c <- before :: c in bs;
    assert forall c <- after :: c in bs;
  }

  lemma WritesWhen(f: Form, e: Event)
    ensures Writes(f, e) <==> ToBeWritten(f.site, e.obs)
  {
  }

  lemma WrittenOne(f: Form, e: Event)
    requires Writes(f, e)
    ensures WrittenBlocks(f, [e]) == [e.block]
  {
    hide Writes;
    assert Front([e]) == [];
  }

  /** How many of the first `k` blocks were to be written. */
  ghost function WrittenBefore(site: Observatory, said: seq<Said>, k: nat): nat
    requires k <= |said|
  {
    |set i: nat | i < k && ToBeWritten(site, said[i].obs)|
  }

  lemma {:induction false} WrittenCount(f: Form, delivered: seq<Pipe.OutBlock<seq<seq<Hit>>>>, said: seq<Said>, k: nat)
    requires |said| == |delivered| && k <= |said|
    ensures |WrittenBlocks(f, Turns(delivered, said)[..k])| == WrittenBefore(f.site, said, k)
  {
    hide ToBeWritten;
    var turns := Turns(delivered, said);
    var now := set i: nat | i < k && ToBeWritten(f.site, said[i].obs);
    if k > 0 {
      WrittenCount(f, delivered, said, k - 1);
      assert turns[..k] == turns[..k - 1] + [turns[k - 1]];
      WrittenNext(f, turns[..k - 1], turns[k - 1]);
      var before := set i: nat | i < k - 1 && ToBeWritten(f.site, said[i].obs);
      assert now == if ToBeWritten(f.site, said[k - 1].obs) then before + {k - 1} else before;
    } else {
      assert now == {};
    }
  }

  lemma WrittenNext(f: Form, es: seq<Event>, e: Event)
    ensures |WrittenBlocks(f, es + [e])| == |WrittenBlocks(f, es)| + if ToBeWritten(f.site, e.obs) then 1 else 0
  {
    assert Front(es + [e]) == es;
  }

  // ---- the whole way ---------------------------------------------------------------------------

  /** A hit table on disk is that of beam or sub-spectrum `bors` and input `input` of a filled
      block: its rows are those of exactly the hits detected there that it takes, and its
      missed packets are the block's, if the GPU thread passes that counter on. */
  ghost predicate TableIs(g: Pipe.Plant, u: Setup, f: Form, fill: Asm.Fill, bors: nat, input: nat, t: Table)
    requires ValidSetup(u) && bors < |fill.header.missed|
  {
    var hits := HitsIn(u, fill.header, fill.data, bors);
    && t.missed == (if bors < g.beamSlots then fill.header.missed[bors] else 0)
    && t.beampol == bors * f.nPols + input
    && t.nhits == |t.rows|
    && exists at :: RowsOfHits(false, input, hits, t.rows, at)
  }

  /** Any run of the three threads, and then the final close. Take a block that was filled
      during a stretch of packets that came with jitter up to half a block, from start-up or
      from a reset on, and carried one stream, and that the output thread read and was to
      write. Behind the tables of the blocks written before it, in whatever files, are its
      own: one for each beam or sub-spectrum and input, with exactly the hits detected in
      data in which every word that belongs to a packet of the stretch is the stream's. */
  lemma WireToDisk(g: Pipe.Plant, u: Setup, f: Form, blank: seq<seq<Hit>>, s: Asm.State, es: seq<Pipe.Event>,
                   before: seq<Asm.Arrival>, top: nat, run: seq<Asm.Arrival>, later: seq<Asm.Arrival>,
                   stream: (nat, nat) -> seq<Word>, p: Pipe.Pipe<seq<seq<Hit>>>, said: seq<Said>,
                   k: nat, bors: nat, input: nat)
    requires Fit(g, u, f) && Asm.Roomy(g.c) && Asm.IsBlank(g.c, s)
    requires var work := Work(u, f.nBors);
             && Pipe.Possible(g, work, blank, Pipe.Begin(g, blank, s), es)
             && p == Pipe.After(g, work, blank, Pipe.Begin(g, blank, s), es)
    requires EndToEnd.Stretch(g.c, s, before, top, run) && EndToEnd.Arrivals(es) == before + run + later
    requires Delivery.OfStream(g.c, run, stream) && EndToEnd.FilledIn(g.c, s, before, run, k)
    requires |said| == |p.delivered| && k < |p.delivered| && ToBeWritten(f.site, said[k].obs)
    requires bors < f.nBors && input < f.nPols
    ensures AllValid(f, Turns(p.delivered, said))
    ensures k < |p.net.released| && |p.net.released[k].header.missed| == f.nBors
    ensures EndToEnd.Faithful(g.c, EndToEnd.FilledAt(g.c, s, before, k), run, stream, p.net.released[k])
    ensures var turns := Turns(p.delivered, said);
            var tables := Flat(TablesOfFiles(Exit(After(f, turns).w).disk.files));
            var at := WrittenBefore(f.site, said, k) * (f.nBors * f.nPols) + (bors * f.nPols + input);
            && turns[k].obs == said[k].obs && turns[k].rolls == said[k].rolls
            && turns[k].block.numChan == p.net.released[k].header.numChan
            && 0 <= at < |tables| && TableIs(g, u, f, p.net.released[k], bors, input, tables[at])
  {
    hide Pipe.Possible, Pipe.After, Pipe.Begin, Pipe.PipeInv, EndToEnd.Stretch, EndToEnd.Arrivals, EndToEnd.Faithful,
         EndToEnd.FilledAt, EndToEnd.FilledIn, Delivery.OfStream, Etfits.After, Exit, Flat, TablesOfFiles,
         WrittenBlocks, Writes, HitsIn, Selected, TablesOf;
    var work, turns := Work(u, f.nBors), Turns(p.delivered, said);
    EndToEnd.StreamToOutput(g, work, blank, s, es, before, top, run, later, stream, p, k);
    Pipe.BeginInv(g, work, blank, s);
    Pipe.AfterInv(g, work, blank, Pipe.Begin(g, blank, s), es);
    EndToEnd.DeliveredIs(g, work, blank, p, k);
    TurnsValid(g, u, f, blank, p, said);
    var x := bors * f.nPols + input;
    CellBound(bors, input, f.nBors, f.nPols);
    TablesInOrder(f, turns);
    assert Writes(f, turns[k]) by { WritesWhen(f, turns[k]); }
    WrittenCount(f, p.delivered, said, k);
    assert Tables(f) == f.nBors * f.nPols;
    TablesOfBlock(f, turns, k, x);
    TableAt(f, turns[k].block, Tables(f), bors, input);
    var rowsAt := TableMeans(f, turns[k].block, bors, input);
  }
}
