/** Under bounded jitter every block that is handed on holds exactly the packets
    of the run that belong to it. */
module Delivery {
  import opened Arith
  import opened Placement
  import opened Assembler
  import opened Jitter
  import opened Ledger

  /** The packets of a run that belong to the block at `start`, in arrival order. */
  function Belonging(c: Config, run: seq<Arrival>, start: nat): seq<Packet>
    requires ValidConfig(c)
  {
    if run == [] then []
    else
      var p := run[|run| - 1].p;
      Belonging(c, run[..|run| - 1], start) + if p.sid < c.nSources && BlockStart(c, p.mcnt) == start then [p] else []
  }

  /** The packets that belong to a block all of whose mcnts are above the run's. */
  lemma {:induction false} NoneYet(c: Config, run: seq<Arrival>, start: nat)
    requires ValidConfig(c)
    requires forall a <- run :: a.p.mcnt < start
    ensures Belonging(c, run, start) == []
  {
    if run != [] {
      NoneYet(c, run[..|run| - 1], start);
      DivModSplit(run[|run| - 1].p.mcnt, c.nm);
    }
  }

  /** Start of the k-th block since `t`. */
  function StartOf(c: Config, t: State, k: nat): nat {
    t.mcntStart + k * c.nm
  }

  /** Where the thread is, `n` blocks after `t`, with the largest mcnt since being `h`. */
  ghost predicate Phase(c: Config, t: State, h: nat, u: State)
    requires ValidConfig(c)
  {
    && |t.released| <= |u.released|
    && (if |u.released| == |t.released| then Catching(c, u, h) else Steady(c, u, h))
    && u.mcntStart == StartOf(c, t, |u.released| - |t.released|)
  }

  lemma PhaseStep(c: Config, t: State, h: nat, s: State, a: Arrival)
    requires ValidConfig(c) && Phase(c, t, h, s) && Nominal(c, a) && Near(c, a.p.mcnt, h)
    ensures Phase(c, t, Max(h, a.p.mcnt), Step(c, s, a))
    ensures Inv(c, Step(c, s, a)) && |s.released| <= |Step(c, s, a).released|
    ensures !Classify(c, s, a.p.mcnt).OutOfSequence?
    ensures Classify(c, s, a.p.mcnt).LatePacket? ==> s.mcntStart == t.mcntStart
  {
    hide Step, Classify, Shaped, BlockFor, NextSlot, Returned;
    StepStart(c, s, a);
    ReturnTellsOfFill(c, s, a);
    if |s.released| == |t.released| {
      CatchingStep(c, s, h, a);
    } else {
      SteadyStep(c, s, h, a);
    }
    NextStart(c, t, |s.released| - |t.released|);
  }

  lemma NextStart(c: Config, t: State, k: nat)
    ensures StartOf(c, t, k + 1) == StartOf(c, t, k) + c.nm
    ensures StartOf(c, t, 0) == t.mcntStart
    ensures StartOf(c, t, k) >= t.mcntStart
  {
    assert (k + 1) * c.nm == k * c.nm + c.nm;
    MulMono(0, k, c.nm);
  }

  /** The two held blocks have exactly the packets of the run that belong to them. */
  ghost predicate HeldIs(c: Config, run: seq<Arrival>, u: State, m: Books)
    requires ValidConfig(c) && Shaped(c, u) && |m.held| == c.nBlocks
  {
    && m.held[u.blockI].log == Belonging(c, run, u.mcntStart)
    && m.held[NextSlot(c, u)].log == Belonging(c, run, u.mcntStart + c.nm)
  }

  lemma BelongingSnoc(c: Config, run: seq<Arrival>, a: Arrival, start: nat)
    requires ValidConfig(c)
    ensures Belonging(c, run + [a], start)
         == Belonging(c, run, start) + if a.p.sid < c.nSources && BlockStart(c, a.p.mcnt) == start then [a.p] else []
  {
    assert (run + [a])[..|run|] == run;
  }

  lemma EnteredHeld(c: Config, s: State, l: Books, run: seq<Arrival>, a: Arrival)
    requires ValidConfig(c) && Inv(c, s) && |l.held| == c.nBlocks && Nominal(c, a)
    requires HeldIs(c, run, s, l)
    requires s.mcntStart <= a.p.mcnt < s.mcntStart + 2 * c.nm
    ensures HeldIs(c, run + [a], Store(c, s, a.p), Entered(c, l, a.p))
  {
    Distances(c, s, a.p.mcnt);
    HeldDistinct(c, s);
    BelongingSnoc(c, run, a, s.mcntStart);
    BelongingSnoc(c, run, a, s.mcntStart + c.nm);
  }

  lemma TurnedHeld(c: Config, s: State, l: Books, run: seq<Arrival>, a: Arrival)
    requires ValidConfig(c) && Inv(c, s) && |l.held| == c.nBlocks && Nominal(c, a)
    requires HeldIs(c, run, s, l)
    requires Classify(c, s, a.p.mcnt).Closing?
    requires forall b <- run :: b.p.mcnt < s.mcntStart + 2 * c.nm
    ensures var t := Advanced(c, s, a);
            && Inv(c, t) && t.mcntStart == s.mcntStart + c.nm
            && t.mcntStart <= a.p.mcnt < t.mcntStart + 2 * c.nm
            && HeldIs(c, run, t, Turned(c, s, l))
  {
    hide BlockStart, BlockFor, Belonging;
    Distances(c, s, a.p.mcnt);
    var r := Release(c, s, a.sec, a.nsec);
    ReleaseClosed(c, s, a.sec, a.nsec, a.p.mcnt);
    AcquireInv(c, r, a.p);
    HeldDistinct(c, r);
    NoneYet(c, run, s.mcntStart + 2 * c.nm);
  }

  lemma HeldStep(c: Config, s: State, l: Books, run: seq<Arrival>, a: Arrival)
    requires ValidConfig(c) && Inv(c, s) && |l.held| == c.nBlocks && Nominal(c, a)
    requires HeldIs(c, run, s, l)
    requires forall b <- run :: b.p.mcnt < s.mcntStart + 2 * c.nm
    requires !Classify(c, s, a.p.mcnt).OutOfSequence?
    ensures HeldIs(c, run + [a], Step(c, s, a), Kept(c, s, l, a))
    ensures forall b <- run + [a] :: b.p.mcnt < Step(c, s, a).mcntStart + 2 * c.nm
  {
    StepStart(c, s, a);
    match Classify(c, s, a.p.mcnt)
    case Current => EnteredHeld(c, s, l, run, a);
    case Closing =>
      TurnedHeld(c, s, l, run, a);
      EnteredHeld(c, Advanced(c, s, a), Turned(c, s, l), run, a);
    case LatePacket =>
      DivModSplit(a.p.mcnt, c.nm);
      BelongingSnoc(c, run, a, s.mcntStart);
      BelongingSnoc(c, run, a, s.mcntStart + c.nm);
  }

  /** The k-th block handed on since the beginning is the right one and has
      exactly the packets of the run that belong to it. */
  ghost predicate Complete(c: Config, t: State, run: seq<Arrival>, u: State, m: Books, k: nat)
    requires ValidConfig(c)
  {
    && |t.released| <= k < |u.released| && k < |m.handed|
    && u.released[k].header.mcnt == StartOf(c, t, k - |t.released|)
    && m.handed[k].log == Belonging(c, run, StartOf(c, t, k - |t.released|))
    && StartOf(c, t, k - |t.released|) < u.mcntStart
  }

  /** What a step does to the blocks handed on. */
  lemma HandedStep(c: Config, s: State, l: Books, a: Arrival)
    requires ValidConfig(c) && Inv(c, s) && |l.held| == c.nBlocks && Nominal(c, a)
    requires !Classify(c, s, a.p.mcnt).OutOfSequence?
    ensures var u, m := Step(c, s, a), Kept(c, s, l, a);
            if Classify(c, s, a.p.mcnt).Closing? then
              && |u.released| == |s.released| + 1 && u.released[..|s.released|] == s.released
              && u.released[|s.released|].header.mcnt == s.mcntStart
              && m.handed == l.handed + [l.held[s.blockI]]
            else
              u.released == s.released && m.handed == l.handed
  {
    StepStart(c, s, a);
  }

  lemma CompleteStep(c: Config, t: State, run: seq<Arrival>, s: State, l: Books, a: Arrival, k: nat)
    requires ValidConfig(c) && Inv(c, s) && |l.held| == c.nBlocks && Nominal(c, a)
    requires |l.handed| == |s.released|
    requires HeldIs(c, run, s, l)
    requires |t.released| <= |s.released| && s.mcntStart == StartOf(c, t, |s.released| - |t.released|)
    requires forall j :: |t.released| <= j < |s.released| ==> Complete(c, t, run, s, l, j)
    requires !Classify(c, s, a.p.mcnt).OutOfSequence?
    requires Classify(c, s, a.p.mcnt).LatePacket? ==> s.mcntStart == t.mcntStart
    requires |t.released| <= k < |Step(c, s, a).released|
    ensures Complete(c, t, run + [a], Step(c, s, a), Kept(c, s, l, a), k)
  {
    hide Step, Kept, Classify, Shaped, Belonging, BlockFor, NextSlot;
    var start := StartOf(c, t, k - |t.released|);
    StepStart(c, s, a);
    HandedStep(c, s, l, a);
    NextStart(c, t, k - |t.released|);
    BelongingSnoc(c, run, a, start);
    InOrAfter(c, s, a.p.mcnt);
    if k < |s.released| {
      assert Complete(c, t, run, s, l, k);
      assert Step(c, s, a).released[k] == Step(c, s, a).released[..|s.released|][k];
    }
  }

  lemma InOrAfter(c: Config, s: State, mcnt: nat)
    requires ValidConfig(c) && Inv(c, s) && mcnt < TWO56
    ensures s.mcntStart + 3 * (c.nm / 2) <= mcnt < s.mcntStart + 2 * c.nm ==> BlockStart(c, mcnt) == s.mcntStart + c.nm
    ensures s.mcntStart <= mcnt < s.mcntStart + 2 * c.nm ==> BlockStart(c, mcnt) >= s.mcntStart
    ensures BlockStart(c, mcnt) <= mcnt
  {
    Distances(c, s, mcnt);
    DivModSplit(mcnt, c.nm);
  }

  /** A start: the thread holds two blocks into which nothing has been stored. */
  ghost predicate Fresh(c: Config, t: State, l: Books)
    requires ValidConfig(c)
  {
    && Inv(c, t)
    && |l.held| == c.nBlocks && |l.handed| == |t.released|
    && l.held[t.blockI].log == [] && l.held[NextSlot(c, t)].log == []
  }

  /** From here on a run that is jittered from `top` on can be followed. */
  ghost predicate Onset(c: Config, t: State, l: Books, top: nat)
    requires ValidConfig(c)
  {
    Agrees(c, t, l) && Fresh(c, t, l) && Catching(c, t, top)
  }

  /** Everything at once, for runs from a fresh start. */
  ghost predicate Tracks(c: Config, t: State, h: nat, run: seq<Arrival>, u: State, m: Books)
    requires ValidConfig(c)
  {
    && Shaped(c, u) && Inv(c, u) && |t.released| <= |u.released|
    && |m.held| == c.nBlocks && |m.handed| == |u.released|
    && Phase(c, t, h, u)
    && HeldIs(c, run, u, m)
    && (forall a <- run :: a.p.mcnt < u.mcntStart + 2 * c.nm)
    && (forall k :: |t.released| <= k < |u.released| ==> Complete(c, t, run, u, m, k))
  }

  lemma TracksStep(c: Config, t: State, h: nat, run: seq<Arrival>, a: Arrival, s: State, l: Books)
    requires ValidConfig(c) && Tracks(c, t, h, run, s, l) && Nominal(c, a)
    requires Near(c, a.p.mcnt, h)
    ensures Tracks(c, t, Max(h, a.p.mcnt), run + [a], Step(c, s, a), Kept(c, s, l, a))
  {
    hide Step, Kept, Classify, Shaped, Inv, HeldIs, Complete, Belonging, StartOf, NextSlot, Near, Max;
    assert s.mcntStart == StartOf(c, t, |s.released| - |t.released|);
    hide Phase;
    var u, m := Step(c, s, a), Kept(c, s, l, a);
    PhaseStep(c, t, h, s, a);
    HeldStep(c, s, l, run, a);
    HandedStep(c, s, l, a);
    forall k | |t.released| <= k < |u.released| ensures Complete(c, t, run + [a], u, m, k) {
      CompleteStep(c, t, run, s, l, a, k);
    }
  }

  lemma TracksNothing(c: Config, t: State, l: Books, top: nat)
    requires ValidConfig(c) && Fresh(c, t, l) && Catching(c, t, top)
    ensures Tracks(c, t, top, [], t, l)
  {
    hide CatchingAt, SteadyAt, BlockFor, Slot;
    NextStart(c, t, 0);
  }

  /** Nothing is lost: in a jittered run from a fresh start, blocks are handed on
      one after the other and each holds exactly the packets of the whole run
      that belong to it, in the order in which they came. */
  lemma {:induction false} NothingLost(c: Config, t: State, l: Books, top: nat, run: seq<Arrival>)
    requires ValidConfig(c) && Fresh(c, t, l) && Catching(c, t, top) && AllNominal(c, run)
    requires Jittered(c, top, run)
    ensures Tracks(c, t, Highest(top, run), run, Run(c, t, run), KeptRun(c, t, l, run))
  {
    hide Step, Kept, Shaped, HeldIs, Complete, Belonging, StartOf, SteadyAt, CatchingAt, BlockFor, NextSlot, Near,
         Tracks;
    if run == [] {
      TracksNothing(c, t, l, top);
    } else {
      var front, a := run[..|run| - 1], run[|run| - 1];
      NothingLost(c, t, l, top, front);
      TracksStep(c, t, Highest(top, front), front, a, Run(c, t, front), KeptRun(c, t, l, front));
      assert run == front + [a];
    }
  }

  lemma StartFresh(c: Config, blank: State)
    requires ValidConfig(c) && IsBlank(c, blank)
    ensures Onset(c, Start(c, blank), NoBooks(c, blank), 0)
    ensures Start(c, blank).mcntStart == 0 && Start(c, blank).released == []
  {
    StartInv(c, blank);
    StartAgrees(c, blank);
    RingSpan(c);
  }

  lemma ResetFresh(c: Config, s: State, l: Books, a: Arrival)
    requires ValidConfig(c) && Agrees(c, s, l) && Nominal(c, a)
    requires Resets(c, s, a.p.mcnt)
    ensures Fresh(c, Step(c, s, a), Kept(c, s, l, a))
    ensures BlockStart(c, a.p.mcnt) <= Step(c, s, a).mcntStart
  {
    BumpedInv(c, s);
    ResetLogs(c, s, l, a, Bumped(s));
    StepInv(c, s, a);
    ResetMinimal(c, Bumped(s), a.p, 0);
  }

  lemma ResetLogs(c: Config, s: State, l: Books, a: Arrival, u: State)
    requires ValidConfig(c) && Inv(c, s) && |l.held| == c.nBlocks && |l.handed| == |s.released| && Nominal(c, a)
    requires Resets(c, s, a.p.mcnt) && u == Bumped(s) && Inv(c, u)
    ensures var t, m := Reset(c, u, a.p), Kept(c, s, l, a);
            && |m.held| == c.nBlocks && |m.handed| == |t.released|
            && m.held[t.blockI].log == [] && m.held[NextSlot(c, t)].log == []
  {
    hide Shaped;
    ResetBlocks(c, u, a.p);
    HeldDistinct(c, s);
  }

  lemma {:induction false} BelongingMembers(c: Config, run: seq<Arrival>, start: nat)
    requires ValidConfig(c)
    ensures forall p :: p in Belonging(c, run, start) <==>
              p.sid < c.nSources && BlockStart(c, p.mcnt) == start && exists a <- run :: a.p == p
  {
    if run != [] {
      var front, a := run[..|run| - 1], run[|run| - 1];
      BelongingMembers(c, front, start);
      BelongingSnoc(c, front, a, start);
      assert run == front + [a];
    }
  }

  /** The k-th block handed on, in a jittered run, and its book. */
  lemma DeliveredBook(c: Config, t: State, l: Books, top: nat, run: seq<Arrival>, k: nat) returns (f: Fill, b: Book)
    requires ValidConfig(c) && Onset(c, t, l, top) && AllNominal(c, run) && Jittered(c, top, run)
    requires |t.released| <= k < |Run(c, t, run).released|
    ensures f == Run(c, t, run).released[k]
    ensures var start := StartOf(c, t, k - |t.released|);
            && f.slot == k % c.nBlocks && f.header.mcnt == start && start + c.nm + c.nm / 2 <= Highest(top, run)
            && LogOk(c, start, b.log) && DataOk(c, f.data, b) && MissedOk(c, f.header.missed, b.log)
            && b.log == Belonging(c, run, start)
  {
    hide Shaped, HeldIs, Jittered, Step, Belonging, LogOk, DataOk, MissedOk, SlotOk, BlockFor, NextSlot;
    var u, m := Run(c, t, run), KeptRun(c, t, l, run);
    NothingLost(c, t, l, top, run);
    assert Complete(c, t, run, u, m, k);
    f, b := u.released[k], m.handed[k];
    BooksAgree(c, t, l, run);
    assert FillOk(c, f, b);
    ReleasedInOrder(c, u);
    StartsApart(c, t, k - |t.released|, |u.released| - |t.released|);
  }

  /** All packets carry what one stream has for their mcnt and source. */
  ghost predicate OfStream(c: Config, run: seq<Arrival>, stream: (nat, nat) -> seq<Word>) {
    forall b <- run :: b.p.payload == stream(b.p.mcnt, Key(c.layout, b.p.sid))
  }

  /** Word `w` of the block at `start` belongs to packet `a`. */
  predicate DataWord(c: Config, start: nat, a: Arrival, w: nat)
    requires ValidConfig(c)
  {
    && a.p.sid < c.nSources && BlockStart(c, a.p.mcnt) == start
    && w < UsedWords(c.layout, c.nm, c.nSources)
    && Owner(c.layout, c.nm, w).m == a.p.mcnt - start && Owner(c.layout, c.nm, w).key == Key(c.layout, a.p.sid)
  }

  /** Word `w` of a block is the stream's word for packet `a`. */
  ghost predicate WordIs(c: Config, stream: (nat, nat) -> seq<Word>, a: Arrival, w: nat, data: seq<Word>)
    requires ValidConfig(c)
  {
    var words, j := stream(a.p.mcnt, Key(c.layout, a.p.sid)), Owner(c.layout, c.nm, w).j;
    w < |data| && j < |words| && data[w] == words[j]
  }

  /** With jitter up to half a block and all payloads taken from one stream, every word
      of a block handed on that belongs to a packet of the run, whenever that packet
      came, holds what the stream has for it. */
  lemma DeliveredData(c: Config, t: State, l: Books, top: nat, run: seq<Arrival>, stream: (nat, nat) -> seq<Word>,
                      k: nat, a: Arrival, w: nat)
    requires ValidConfig(c) && Roomy(c) && Onset(c, t, l, top) && AllNominal(c, run)
    requires Jittered(c, top, run) && OfStream(c, run, stream)
    requires |t.released| <= k < |Run(c, t, run).released|
    requires a in run && DataWord(c, StartOf(c, t, k - |t.released|), a, w)
    ensures WordIs(c, stream, a, w, Run(c, t, run).released[k].data)
  {
    hide Run, KeptRun, LogOk, DataOk, MissedOk, Belonging, Owner, UsedWords, PlacedAll, BlockStart, FillOk, Onset,
         StartOf;
    var start := StartOf(c, t, k - |t.released|);
    var f, b := DeliveredBook(c, t, l, top, run, k);
    BelongingMembers(c, run, start);
    Contents(c, start, f.data, b, stream, w);
  }

  /** In a jittered run the missed-packet counters of every block handed on are what
      is left of nm after all packets of the run for that block, and so the number of
      its mcnts that no packet of the run had, exactly if none had the same twice. */
  lemma DeliveredLoss(c: Config, t: State, l: Books, top: nat, run: seq<Arrival>, k: nat, x: nat)
    requires ValidConfig(c) && Onset(c, t, l, top) && AllNominal(c, run) && Jittered(c, top, run)
    requires |t.released| <= k < |Run(c, t, run).released| && x < c.nBors
    ensures var f, start := Run(c, t, run).released[k], StartOf(c, t, k - |t.released|);
            var log := Belonging(c, run, start);
            && f.header.mcnt == start && x < |f.header.missed|
            && f.header.missed[x] == U64(c.nm as int - Count(c, log, x))
            && (|run| < TWO64 ==> (f.header.missed[x] == |NeverStored(c, start, log, x)| <==> NoRepeats(c, log, x)))
  {
    hide Run, KeptRun, DataOk, BlockStart, FillOk, Onset, StartOf, NeverStored, NoRepeats, Count, LogOk;
    var f, b := DeliveredBook(c, t, l, top, run, k);
    BelongingFew(c, run, f.header.mcnt);
    if |run| < TWO64 {
      ExactLoss(c, f.header.mcnt, f.header.missed, b.log, x);
    }
  }

  lemma {:induction false} BelongingFew(c: Config, run: seq<Arrival>, start: nat)
    requires ValidConfig(c)
    ensures |Belonging(c, run, start)| <= |run|
  {
    hide BlockStart;
    if run != [] {
      BelongingFew(c, run[..|run| - 1], start);
    }
  }

  // ---- complete blocks -----------------------------------------------------------------

  predicate Sent(run: seq<Arrival>, mcnt: nat, sid: nat) {
    exists a <- run :: a.p.mcnt == mcnt && a.p.sid == sid
  }

  predicate SameCounter(c: Config, p: Packet, q: Packet) {
    p.sid < c.nSources && q.sid < c.nSources && Counter(c, p.sid) == Counter(c, q.sid)
  }

  /** No two packets of valid sources count the same mcnt for the same counter. */
  ghost predicate Once(c: Config, run: seq<Arrival>) {
    forall i, j :: 0 <= i < j < |run| && SameCounter(c, run[i].p, run[j].p) ==> run[i].p.mcnt != run[j].p.mcnt
  }

  /** Every source of a set sends every mcnt from `from` on: all that are further behind
      the largest than jitter allows have come. */
  ghost predicate Fed(c: Config, from: nat, top: nat, run: seq<Arrival>, sources: set<nat>) {
    forall m: nat, sid :: from <= m && m + c.nm / 2 < Highest(top, run) && sid in sources ==> Sent(run, m, sid)
  }

  lemma {:induction false} BelongingOnce(c: Config, run: seq<Arrival>, start: nat, x: nat)
    requires ValidConfig(c) && Once(c, run)
    ensures NoRepeats(c, Belonging(c, run, start), x)
  {
    hide BlockStart;
    if run != [] {
      var front, a := run[..|run| - 1], run[|run| - 1];
      var log := Belonging(c, front, start);
      assert run == front + [a];
      BelongingOnce(c, front, start, x);
      BelongingSnoc(c, front, a, start);
      BelongingMembers(c, front, start);
      assert log + [] == log;
      if Counter(c, a.p.sid) == x && a.p.sid < c.nSources && BlockStart(c, a.p.mcnt) == start {
        forall p <- log | Counter(c, p.sid) == x ensures p.mcnt != a.p.mcnt {
          var i :| 0 <= i < |front| && front[i].p == p;
          assert run[i].p == p && run[|run| - 1] == a;
        }
        RepeatsSnoc(c, log, a.p, x);
      }
    }
  }

  /** Every mcnt of a block of a fed run has been stored for each source. */
  lemma FedStored(c: Config, from: nat, top: nat, run: seq<Arrival>, sources: set<nat>, start: nat, sid: nat)
    requires ValidConfig(c) && Fed(c, from, top, run, sources) && sid in sources && sid < c.nSources
    requires start % c.nm == 0 && from <= start && start + c.nm + c.nm / 2 <= Highest(top, run)
    ensures NeverStored(c, start, Belonging(c, run, start), Counter(c, sid)) == {}
  {
    hide Belonging, BlockStart, Fed;
    var log := Belonging(c, run, start);
    BelongingMembers(c, run, start);
    forall m <- Span(start, c.nm) ensures m in Stored(c, log, Counter(c, sid)) {
      assert Sent(run, m, sid) by { FedAt(c, from, top, run, sources, m, sid); }
      var a :| a in run && a.p.mcnt == m && a.p.sid == sid;
      InThisBlock(c, start, m);
      assert a.p in log;
    }
  }

  lemma FedAt(c: Config, from: nat, top: nat, run: seq<Arrival>, sources: set<nat>, m: nat, sid: nat)
    requires Fed(c, from, top, run, sources) && sid in sources
    requires from <= m && m + c.nm / 2 < Highest(top, run)
    ensures Sent(run, m, sid)
  {
  }

  lemma FedLoss(c: Config, t: State, l: Books, top: nat, from: nat, run: seq<Arrival>, sources: set<nat>, k: nat,
                sid: nat)
    requires ValidConfig(c) && Onset(c, t, l, top) && AllNominal(c, run) && Jittered(c, top, run)
    requires Once(c, run) && Fed(c, from, top, run, sources) && sid in sources && sid < c.nSources
    requires |t.released| <= k < |Run(c, t, run).released| && from <= StartOf(c, t, k - |t.released|)
    ensures var missed := Run(c, t, run).released[k].header.missed;
            Counter(c, sid) < |missed| && missed[Counter(c, sid)] == 0
  {
    hide Run, KeptRun, DataOk, BlockStart, FillOk, StartOf, NeverStored, NoRepeats, Count, Belonging, Once, Fed,
         Highest, Stored, Onset;
    var x, start := Counter(c, sid), StartOf(c, t, k - |t.released|);
    var f, b := DeliveredBook(c, t, l, top, run, k);
    assert Inv(c, t) by { OnsetInv(c, t, l, top); }
    StartsApart(c, t, k - |t.released|, k - |t.released| + 1);
    FedStored(c, from, top, run, sources, start, sid);
    BelongingOnce(c, run, start, x);
    DistinctCount(c, b.log, x);
    StoredInSpan(c, start, b.log, x);
  }

  lemma OnsetInv(c: Config, t: State, l: Books, top: nat)
    requires ValidConfig(c) && Onset(c, t, l, top)
    ensures Inv(c, t)
  {
  }

  /** Each word of each packet of some sources is in its place in the block at `start`. */
  ghost predicate HoldsStream(c: Config, start: nat, sources: set<nat>, stream: (nat, nat) -> seq<Word>,
                              data: seq<Word>)
    requires ValidConfig(c)
  {
    forall m: nat, sid, j: nat :: m < c.nm && sid in sources && j < PayloadWords(c.layout) ==>
                                    CellHeld(c, start, stream, m, sid, j, data)
  }

  ghost predicate CellHeld(c: Config, start: nat, stream: (nat, nat) -> seq<Word>, m: nat, sid: nat, j: nat,
                           data: seq<Word>)
    requires ValidConfig(c)
  {
    var words, at := stream(start + m, Key(c.layout, sid)), Addr(c.layout, c.nm, Cell(m, Key(c.layout, sid), j));
    at < |data| && j < |words| && data[at] == words[j]
  }

  lemma FedData(c: Config, t: State, l: Books, top: nat, from: nat, run: seq<Arrival>, sources: set<nat>,
                stream: (nat, nat) -> seq<Word>, k: nat)
    requires ValidConfig(c) && Roomy(c) && Onset(c, t, l, top) && AllNominal(c, run) && Jittered(c, top, run)
    requires Fed(c, from, top, run, sources) && OfStream(c, run, stream) && forall sid <- sources :: sid < c.nSources
    requires |t.released| <= k < |Run(c, t, run).released| && from <= StartOf(c, t, k - |t.released|)
    ensures HoldsStream(c, StartOf(c, t, k - |t.released|), sources, stream, Run(c, t, run).released[k].data)
  {
    hide Run, KeptRun, LogOk, DataOk, MissedOk, BlockStart, FillOk, StartOf, Belonging, Fed, Highest, Onset, CellHeld,
         Jittered;
    var start := StartOf(c, t, k - |t.released|);
    var f, b := DeliveredBook(c, t, l, top, run, k);
    assert Inv(c, t) by { OnsetInv(c, t, l, top); }
    StartsApart(c, t, k - |t.released|, k - |t.released| + 1);
    forall m: nat, sid, j: nat | m < c.nm && sid in sources && j < PayloadWords(c.layout)
      ensures CellHeld(c, start, stream, m, sid, j, f.data)
    {
      FedAt(c, from, top, run, sources, start + m, sid);
      var a :| a in run && a.p.mcnt == start + m && a.p.sid == sid;
      InThisBlock(c, start, start + m);
      var cell := Cell(m, Key(c.layout, sid), j);
      var w := Addr(c.layout, c.nm, cell);
      assert DataWord(c, start, a, w) && Owner(c.layout, c.nm, w) == cell by {
        PlacementInjective(c.layout, c.nm, c.nSources, cell);
      }
      DeliveredData(c, t, l, top, run, stream, k, a, w);
      assert CellHeld(c, start, stream, m, sid, j, f.data) by { CellOf(c, start, stream, a, m, j, f.data); }
    }
  }

  lemma CellOf(c: Config, start: nat, stream: (nat, nat) -> seq<Word>, a: Arrival, m: nat, j: nat, data: seq<Word>)
    requires ValidConfig(c) && a.p.mcnt == start + m
    requires var cell := Cell(m, Key(c.layout, a.p.sid), j);
             var w := Addr(c.layout, c.nm, cell);
             Owner(c.layout, c.nm, w) == cell && WordIs(c, stream, a, w, data)
    ensures CellHeld(c, start, stream, m, a.p.sid, j, data)
  {
  }

  lemma InThisBlock(c: Config, start: nat, mcnt: nat)
    requires ValidConfig(c) && start % c.nm == 0
    ensures BlockStart(c, mcnt) == start <==> start <= mcnt < start + c.nm
  {
    if start <= mcnt < start + c.nm {
      InBlock(c, start, mcnt);
    } else {
      DivModSplit(mcnt, c.nm);
    }
  }

  /** A reset resynchronises completely. After the packet that caused it let each source
      of a set send all following mcnts once, with packets of all sources in any order
      that jitter up to half a block allows: every block handed on after the first one,
      and the first one if it starts above the resetting packet, has no missed packet
      for these sources and holds every word of every one of their packets. */
  lemma ResetThenComplete(c: Config, s: State, l: Books, a: Arrival, run: seq<Arrival>, sources: set<nat>,
                          stream: (nat, nat) -> seq<Word>, k: nat)
    requires ValidConfig(c) && Agrees(c, s, l) && Nominal(c, a) && AllNominal(c, run)
    requires Resets(c, s, a.p.mcnt) && Jittered(c, a.p.mcnt, run)
    requires forall sid <- sources :: sid < c.nSources
    requires Once(c, run) && Fed(c, a.p.mcnt + 1, a.p.mcnt, run, sources)
    requires |s.released| <= k < |Run(c, Step(c, s, a), run).released|
    requires k > |s.released| || Step(c, s, a).mcntStart > a.p.mcnt
    ensures var f, start := Run(c, Step(c, s, a), run).released[k], StartOf(c, Step(c, s, a), k - |s.released|);
            && f.header.mcnt == start
            && (forall sid <- sources :: Counter(c, sid) < |f.header.missed| && f.header.missed[Counter(c, sid)] == 0)
            && (Roomy(c) && OfStream(c, run, stream) ==> HoldsStream(c, start, sources, stream, f.data))
  {
    hide Run, KeptRun, Shaped, Step, Kept, StartOf, BlockStart, BlockFor, NextSlot, Jittered, Once, Fed, HoldsStream,
         OfStream, Onset, Resets, SlotOk, FillOk;
    var t, m, top := Step(c, s, a), Kept(c, s, l, a), a.p.mcnt;
    ResetFacts(c, s, l, a);
    StartsApart(c, t, k - |s.released|, k - |s.released| + 1);
    var f, b := DeliveredBook(c, t, m, top, run, k);
    forall sid <- sources ensures Counter(c, sid) < |f.header.missed| && f.header.missed[Counter(c, sid)] == 0 {
      FedLoss(c, t, m, top, top + 1, run, sources, k, sid);
    }
    if Roomy(c) && OfStream(c, run, stream) {
      FedData(c, t, m, top, top + 1, run, sources, stream, k);
    }
  }

  /** Sources taking turns, mcnt by mcnt, are such a run for all of them. */
  lemma RoundRobin(c: Config, top: nat, run: seq<Arrival>)
    requires ValidConfig(c) && !c.layout.Fast?
    requires forall i :: 0 <= i < |run| ==> run[i].p.mcnt == top + 1 + i / c.nSources && run[i].p.sid == i % c.nSources
    ensures Jittered(c, top, run) && Once(c, run)
    ensures Fed(c, top + 1, top, run, Span(0, c.nSources))
  {
    TurnsJittered(c, top, run);
    forall i, j | 0 <= i < j < |run| && run[i].p.sid == run[j].p.sid ensures run[i].p.mcnt != run[j].p.mcnt {
      DivModSplit(i, c.nSources);
      DivModSplit(j, c.nSources);
    }
    hide Highest;
    forall m: nat, sid | top + 1 <= m && m + c.nm / 2 < Highest(top, run) && sid in Span(0, c.nSources)
      ensures Sent(run, m, sid)
    {
      TurnAt(c, top, run, m, sid);
    }
  }

  lemma TurnAt(c: Config, top: nat, run: seq<Arrival>, m: nat, sid: nat)
    requires ValidConfig(c) && sid < c.nSources && run != []
    requires forall i :: 0 <= i < |run| ==> run[i].p.mcnt == top + 1 + i / c.nSources && run[i].p.sid == i % c.nSources
    requires top + 1 <= m < top + 1 + (|run| - 1) / c.nSources
    ensures Sent(run, m, sid)
  {
    var n, q := c.nSources, m - top - 1;
    DivModUnique(q, sid, n);
    var i := q * n + sid;
    assert i < |run| by {
      DivModSplit(|run| - 1, n);
      MulMono(q + 1, (|run| - 1) / n, n);
      assert (q + 1) * n == q * n + n;
    }
    assert run[i].p.mcnt == m && run[i].p.sid == sid;
  }

  lemma {:induction false} TurnsJittered(c: Config, top: nat, run: seq<Arrival>)
    requires ValidConfig(c)
    requires forall i :: 0 <= i < |run| ==> run[i].p.mcnt == top + 1 + i / c.nSources
    ensures Jittered(c, top, run)
    ensures Highest(top, run) == if run == [] then top else top + 1 + (|run| - 1) / c.nSources
  {
    if |run| >= 1 {
      var i, n := |run| - 1, c.nSources;
      TurnsJittered(c, top, run[..i]);
      DivModSplit(i, n);
      if i > 0 {
        NextQuotient(i - 1, n);
      } else {
        DivModUnique(0, 0, n);
      }
    }
  }

  lemma NextQuotient(i: nat, n: nat)
    requires n > 0
    ensures i / n <= (i + 1) / n <= i / n + 1
  {
    DivModSplit(i, n);
    if i % n + 1 < n {
      DivModUnique(i / n, i % n + 1, n);
    } else {
      assert i + 1 == (i / n + 1) * n + 0;
      DivModUnique(i / n + 1, 0, n);
    }
  }

  lemma ResetFacts(c: Config, s: State, l: Books, a: Arrival)
    requires ValidConfig(c) && Agrees(c, s, l) && Nominal(c, a)
    requires Resets(c, s, a.p.mcnt)
    ensures var t, m := Step(c, s, a), Kept(c, s, l, a);
            && Onset(c, t, m, a.p.mcnt) && Inv(c, t)
            && |t.released| == |s.released|
            && t.mcntStart + c.nm > a.p.mcnt
  {
    hide Shaped, SlotOk, FillOk, Kept, Classify;
    ReturnTellsOfFill(c, s, a);
    KeptAgrees(c, s, l, a);
    ResetFresh(c, s, l, a);
    ResetCatches(c, s, a);
    DivModSplit(a.p.mcnt, c.nm);
  }

  // ---- any history ------------------------------------------------------------------------

  /** The packets `before` end where blocks can be followed from: there are none yet, or
      the last one caused a reset. `top` is the mcnt to go on from. */
  ghost predicate Begins(c: Config, blank: State, before: seq<Arrival>, top: nat)
    requires ValidConfig(c) && IsBlank(c, blank) && AllNominal(c, before)
  {
    if before == [] then top == 0
    else
      var n := |before| - 1;
      top == before[n].p.mcnt && Resets(c, Run(c, Start(c, blank), before[..n]), before[n].p.mcnt)
  }

  lemma BeginsOnset(c: Config, blank: State, before: seq<Arrival>, top: nat)
    requires ValidConfig(c) && IsBlank(c, blank) && AllNominal(c, before) && Begins(c, blank, before, top)
    ensures var s, l := Start(c, blank), NoBooks(c, blank);
            Onset(c, Run(c, s, before), KeptRun(c, s, l, before), top)
  {
    hide Step, Kept, Shaped, Fresh, Catching, Agrees;
    StartFresh(c, blank);
    if before != [] {
      var s, l, front := Start(c, blank), NoBooks(c, blank), before[..|before| - 1];
      assert Agrees(c, s, l) by { StartAgrees(c, blank); }
      BooksAgree(c, s, l, front);
      ResetFacts(c, Run(c, s, front), KeptRun(c, s, l, front), before[|before| - 1]);
    }
  }

  lemma {:induction false} RunSplit(c: Config, s: State, x: seq<Arrival>, y: seq<Arrival>)
    requires ValidConfig(c) && Shaped(c, s) && AllNominal(c, x) && AllNominal(c, y)
    ensures AllNominal(c, x + y)
    ensures Run(c, s, x + y) == Run(c, Run(c, s, x), y)
  {
    hide Step, Shaped, Nominal;
    if y == [] {
      assert x + y == x;
    } else {
      RunSplit(c, s, x, y[..|y| - 1]);
      assert (x + y)[..|x + y| - 1] == x + y[..|y| - 1];
    }
  }

  lemma StepReleases(c: Config, s: State, a: Arrival)
    requires ValidConfig(c) && Shaped(c, s) && Nominal(c, a)
    ensures s.released <= Step(c, s, a).released
  {
  }

  /** What has been handed on stays as it was. */
  lemma {:induction false} RunReleases(c: Config, s: State, run: seq<Arrival>)
    requires ValidConfig(c) && Shaped(c, s) && AllNominal(c, run)
    ensures s.released <= Run(c, s, run).released
  {
    hide Step, Shaped, Nominal;
    if run != [] {
      RunReleases(c, s, run[..|run| - 1]);
      StepReleases(c, Run(c, s, run[..|run| - 1]), run[|run| - 1]);
    }
  }

  lemma StartsApart(c: Config, t: State, i: nat, j: nat)
    requires ValidConfig(c) && Inv(c, t) && i < j
    ensures StartOf(c, t, i) + c.nm <= StartOf(c, t, j)
    ensures i > 0 ==> t.mcntStart + c.nm <= StartOf(c, t, i)
    ensures StartOf(c, t, i) >= t.mcntStart
    ensures StartOf(c, t, i) % c.nm == 0
  {
    NextStart(c, t, i);
    MulMono(i + 1, j, c.nm);
    if i > 0 {
      MulMono(1, i, c.nm);
    }
    DivModSplit(t.mcntStart, c.nm);
    assert StartOf(c, t, i) == (BlockNo(c, t.mcntStart) + i) * c.nm + 0;
    DivModUnique(BlockNo(c, t.mcntStart) + i, 0, c.nm);
  }
}
