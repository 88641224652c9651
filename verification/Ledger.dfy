/** What is in each block: the packets stored since the block was initialised,
    against its missed-packet counters and its data. */
module Ledger {
  import opened Arith
  import opened Placement
  import opened Assembler

  /** The data a block had when it was initialised and the packets stored since. */
  datatype Book = Book(base: seq<Word>, log: seq<Packet>)

  /** A book for every slot, and the books of the blocks handed on. */
  datatype Books = Books(held: seq<Book>, handed: seq<Book>)

  /** Packets of the log that one missed-packet counter counts. */
  function Count(c: Config, log: seq<Packet>, x: nat): (n: nat)
    ensures n <= |log|
  {
    if log == [] then 0
    else Count(c, log[..|log| - 1], x) + if Counter(c, log[|log| - 1].sid) == x then 1 else 0
  }

  lemma CountSnoc(c: Config, log: seq<Packet>, p: Packet, x: nat)
    ensures Count(c, log + [p], x) == Count(c, log, x) + if Counter(c, p.sid) == x then 1 else 0
  {
    assert (log + [p])[..|log|] == log;
  }

  predicate Whole(c: Config, log: seq<Packet>)
    requires ValidConfig(c)
  {
    forall p <- log :: |p.payload| == PayloadWords(c.layout)
  }

  function PieceOf(c: Config, p: Packet): Piece
    requires ValidConfig(c)
  {
    DivModSplit(p.mcnt, c.nm);
    Piece(p.mcnt % c.nm, Key(c.layout, p.sid), p.payload)
  }

  function Pieces(c: Config, log: seq<Packet>): (ps: seq<Piece>)
    requires ValidConfig(c) && Whole(c, log)
    ensures |ps| == |log|
    ensures forall i :: 0 <= i < |log| ==> ps[i] == PieceOf(c, log[i])
  {
    seq(|log|, i requires 0 <= i < |log| => PieceOf(c, log[i]))
  }

  /** The log holds nominal packets from valid sources that belong to the block. */
  ghost predicate LogOk(c: Config, mcnt: nat, log: seq<Packet>)
    requires ValidConfig(c)
  {
    Whole(c, log) && forall p <- log :: p.sid < c.nSources && BlockStart(c, p.mcnt) == mcnt
  }

  ghost predicate DataOk(c: Config, data: seq<Word>, b: Book)
    requires ValidConfig(c) && Whole(c, b.log)
  {
    |b.base| == c.blockWords && data == PlacedAll(c.layout, c.nm, c.nSources, b.base, Pieces(c, b.log))
  }

  ghost predicate MissedOk(c: Config, missed: seq<nat>, log: seq<Packet>) {
    |missed| == c.nBors && forall x :: 0 <= x < c.nBors ==> missed[x] == U64(c.nm as int - Count(c, log, x))
  }

  /** A block's header and data are what the packets in its book make of them. */
  ghost predicate BookOk(c: Config, mcnt: nat, missed: seq<nat>, data: seq<Word>, b: Book)
    requires ValidConfig(c)
  {
    LogOk(c, mcnt, b.log) && DataOk(c, data, b) && MissedOk(c, missed, b.log)
  }

  function Opened(c: Config, s: State, l: Books, i: nat): Books
    requires i < |s.blocks| && i < |l.held|
  {
    l.(held := l.held[i := Book(s.blocks[i], [])])
  }

  function Entered(c: Config, l: Books, p: Packet): Books
    requires ValidConfig(c) && |l.held| == c.nBlocks
  {
    var i := BlockFor(c, p.mcnt);
    if p.sid < c.nSources then l.(held := l.held[i := l.held[i].(log := l.held[i].log + [p])]) else l
  }

  /** The books after the current block has been handed on. */
  function Turned(c: Config, s: State, l: Books): (m: Books)
    requires ValidConfig(c) && Shaped(c, s) && |l.held| == c.nBlocks
    ensures |m.held| == c.nBlocks
  {
    Opened(c, s, l.(handed := l.handed + [l.held[s.blockI]]), (NextSlot(c, s) + 1) % c.nBlocks)
  }

  /** Book-keeping beside one step of the assembler. */
  function Kept(c: Config, s: State, l: Books, a: Arrival): (m: Books)
    requires ValidConfig(c) && Shaped(c, s) && |l.held| == c.nBlocks
    ensures |m.held| == c.nBlocks
  {
    match Classify(c, s, a.p.mcnt)
    case Current => Entered(c, l, a.p)
    case Closing => Entered(c, Turned(c, s, l), a.p)
    case LatePacket => l
    case OutOfSequence =>
      if Resets(c, s, a.p.mcnt) then Opened(c, s, Opened(c, s, l, s.blockI), NextSlot(c, s)) else l
  }

  /** The books agree with the ring. */
  ghost predicate Agrees(c: Config, s: State, l: Books)
    requires ValidConfig(c)
  {
    && Inv(c, s)
    && |l.held| == c.nBlocks
    && |l.handed| == |s.released|
    && SlotOk(c, s, l, s.blockI)
    && SlotOk(c, s, l, NextSlot(c, s))
    && (forall k :: 0 <= k < |s.released| ==> FillOk(c, s.released[k], l.handed[k]))
  }

  ghost predicate SlotOk(c: Config, s: State, l: Books, i: nat)
    requires ValidConfig(c) && i < |s.headers| && i < |s.blocks| && i < |l.held|
  {
    BookOk(c, s.headers[i].mcnt, s.headers[i].missed, s.blocks[i], l.held[i])
  }

  ghost predicate FillOk(c: Config, f: Fill, b: Book)
    requires ValidConfig(c)
  {
    BookOk(c, f.header.mcnt, f.header.missed, f.data, b)
  }

  lemma FreshBook(c: Config, mcnt: nat, data: seq<Word>)
    requires ValidConfig(c) && |data| == c.blockWords
    ensures BookOk(c, mcnt, seq(c.nBors, _ => c.nm), data, Book(data, []))
  {
    RingSpan(c);
  }

  /** Storing one more packet keeps a book in order. */
  lemma BookEntry(c: Config, mcnt: nat, missed: seq<nat>, data: seq<Word>, b: Book, p: Packet)
    requires ValidConfig(c) && BookOk(c, mcnt, missed, data, b)
    requires p.sid < c.nSources && BlockStart(c, p.mcnt) == mcnt && |p.payload| == PayloadWords(c.layout)
    ensures Counter(c, p.sid) < |missed|
    ensures var x := Counter(c, p.sid);
            BookOk(c, mcnt, missed[x := U64(missed[x] as int - 1)],
                   Placed(c.layout, c.nm, c.nSources, data, p.mcnt % c.nm, Key(c.layout, p.sid), p.payload),
                   b.(log := b.log + [p]))
  {
    DataEntry(c, data, b, p);
    MissedEntry(c, missed, b.log, p);
  }

  lemma DataEntry(c: Config, data: seq<Word>, b: Book, p: Packet)
    requires ValidConfig(c) && Whole(c, b.log) && |p.payload| == PayloadWords(c.layout)
    requires DataOk(c, data, b)
    ensures Whole(c, b.log + [p])
    ensures DataOk(c, Placed(c.layout, c.nm, c.nSources, data, p.mcnt % c.nm, Key(c.layout, p.sid), p.payload),
                   b.(log := b.log + [p]))
  {
    var ps := Pieces(c, b.log + [p]);
    assert ps[..|ps| - 1] == Pieces(c, b.log);
    assert ps[|ps| - 1] == PieceOf(c, p);
  }

  lemma MissedEntry(c: Config, missed: seq<nat>, log: seq<Packet>, p: Packet)
    requires ValidConfig(c) && p.sid < c.nSources
    requires MissedOk(c, missed, log)
    ensures Counter(c, p.sid) < c.nBors
    ensures var y := Counter(c, p.sid);
            MissedOk(c, missed[y := U64(missed[y] as int - 1)], log + [p])
  {
    forall x | 0 <= x < c.nBors
      ensures Count(c, log + [p], x) == Count(c, log, x) + if Counter(c, p.sid) == x then 1 else 0
    {
      CountSnoc(c, log, p, x);
    }
    CountDown(c.nm as int - Count(c, log, Counter(c, p.sid)));
  }

  /** Counting down a wrapped counter is wrapping the count. */
  lemma CountDown(v: int)
    ensures U64(U64(v) as int - 1) == U64(v - 1)
  {
  }

  lemma StoreSlot(c: Config, s: State, l: Books, p: Packet, i: nat)
    requires ValidConfig(c) && Shaped(c, s) && |l.held| == c.nBlocks && i < c.nBlocks
    requires |p.payload| == PayloadWords(c.layout)
    requires SlotOk(c, s, l, i)
    requires i == BlockFor(c, p.mcnt) ==> s.headers[i].mcnt == BlockStart(c, p.mcnt)
    ensures SlotOk(c, Store(c, s, p), Entered(c, l, p), i)
  {
    hide Placed, LogOk, DataOk, MissedOk, BlockStart;
    if p.sid < c.nSources && i == BlockFor(c, p.mcnt) {
      BookEntry(c, s.headers[i].mcnt, s.headers[i].missed, s.blocks[i], l.held[i], p);
      StoreWrites(c, s, l, p);
    }
  }

  lemma StoreWrites(c: Config, s: State, l: Books, p: Packet)
    requires ValidConfig(c) && Shaped(c, s) && |l.held| == c.nBlocks
    requires |p.payload| == PayloadWords(c.layout) && p.sid < c.nSources
    ensures var i, x, t, m := BlockFor(c, p.mcnt), Counter(c, p.sid), Store(c, s, p), Entered(c, l, p);
            && x < c.nBors
            && t.headers[i].mcnt == s.headers[i].mcnt
            && t.headers[i].missed == s.headers[i].missed[x := U64(s.headers[i].missed[x] as int - 1)]
            && t.blocks[i] == Placed(c.layout, c.nm, c.nSources, s.blocks[i], p.mcnt % c.nm, Key(c.layout, p.sid),
                                     p.payload)
            && m.held[i] == l.held[i].(log := l.held[i].log + [p])
  {
  }

  lemma EnteredAgrees(c: Config, s: State, l: Books, p: Packet)
    requires ValidConfig(c) && Agrees(c, s, l)
    requires p.mcnt < TWO56 && |p.payload| == PayloadWords(c.layout)
    requires s.mcntStart <= p.mcnt < s.mcntStart + 2 * c.nm
    ensures Agrees(c, Store(c, s, p), Entered(c, l, p))
  {
    hide BookOk, BlockStart;
    Distances(c, s, p.mcnt);
    HeldDistinct(c, s);
    StoreInv(c, s, p);
    StoreSlot(c, s, l, p, s.blockI);
    StoreSlot(c, s, l, p, NextSlot(c, s));
  }

  lemma ClosingAgrees(c: Config, s: State, l: Books, a: Arrival)
    requires ValidConfig(c) && Agrees(c, s, l) && Nominal(c, a)
    requires Classify(c, s, a.p.mcnt).Closing?
    ensures var t := Advanced(c, s, a);
            && Agrees(c, t, Turned(c, s, l))
            && t.mcntStart <= a.p.mcnt < t.mcntStart + 2 * c.nm
  {
    hide BlockStart, LogOk, DataOk, MissedOk;
    Distances(c, s, a.p.mcnt);
    var r := Release(c, s, a.sec, a.nsec);
    ReleaseClosed(c, s, a.sec, a.nsec, a.p.mcnt);
    AcquireInv(c, r, a.p);
    HeldDistinct(c, r);
    HeldDistinct(c, s);
    FreshBook(c, r.mcntStart + c.nm, s.blocks[NextSlot(c, r)]);
  }

  /** A reset relabels the two held blocks with full missed counts, and leaves data alone. */
  lemma ResetBlocks(c: Config, s: State, p: Packet)
    requires ValidConfig(c) && Inv(c, s) && p.mcnt < TWO56
    ensures var t := Reset(c, s, p);
            && t.blocks == s.blocks && t.released == s.released
            && t.blockI == s.blockI
            && t.headers[t.blockI].missed == seq(c.nBors, _ => c.nm)
            && t.headers[NextSlot(c, t)].missed == seq(c.nBors, _ => c.nm)
  {
    var start := BlockStart(c, ResetTarget(c, s, p.mcnt));
    ResetStart(c, s, p.mcnt);
    HeldDistinct(c, s);
    RingSpan(c);
    BlockAfter(c, start);
  }

  lemma ResetAgrees(c: Config, s: State, l: Books, a: Arrival)
    requires ValidConfig(c) && Agrees(c, s, l) && Nominal(c, a)
    requires Resets(c, s, a.p.mcnt)
    ensures Agrees(c, Reset(c, Bumped(s), a.p), Opened(c, s, Opened(c, s, l, s.blockI), NextSlot(c, s)))
  {
    var u := Bumped(s);
    ResetInv(c, u, a.p);
    ResetBlocks(c, u, a.p);
    RelabelledAgrees(c, s, Reset(c, u, a.p), l);
  }

  lemma RelabelledAgrees(c: Config, s: State, t: State, l: Books)
    requires ValidConfig(c) && Agrees(c, s, l) && Inv(c, t)
    requires t.blocks == s.blocks && t.released == s.released && t.blockI == s.blockI
    requires t.headers[t.blockI].missed == seq(c.nBors, _ => c.nm)
    requires t.headers[NextSlot(c, t)].missed == seq(c.nBors, _ => c.nm)
    ensures Agrees(c, t, Opened(c, s, Opened(c, s, l, s.blockI), NextSlot(c, s)))
  {
    var m := Opened(c, s, Opened(c, s, l, s.blockI), NextSlot(c, s));
    HeldDistinct(c, s);
    OpenedSlot(c, t, m, s.blockI);
    OpenedSlot(c, t, m, NextSlot(c, s));
  }

  lemma OpenedSlot(c: Config, t: State, m: Books, i: nat)
    requires ValidConfig(c) && Shaped(c, t) && i < c.nBlocks && i < |m.held|
    requires t.headers[i].missed == seq(c.nBors, _ => c.nm)
    requires m.held[i] == Book(t.blocks[i], [])
    ensures SlotOk(c, t, m, i)
  {
    FreshBook(c, t.headers[i].mcnt, t.blocks[i]);
  }

  lemma CurrentKept(c: Config, s: State, l: Books, a: Arrival)
    requires ValidConfig(c) && Agrees(c, s, l) && Nominal(c, a)
    requires Classify(c, s, a.p.mcnt).Current?
    ensures Agrees(c, Step(c, s, a), Kept(c, s, l, a))
  {
    Distances(c, s, a.p.mcnt);
    EnteredAgrees(c, s, l, a.p);
  }

  lemma ClosingKept(c: Config, s: State, l: Books, a: Arrival)
    requires ValidConfig(c) && Agrees(c, s, l) && Nominal(c, a)
    requires Classify(c, s, a.p.mcnt).Closing?
    ensures Agrees(c, Step(c, s, a), Kept(c, s, l, a))
  {
    hide Shaped, BookOk, Advanced, Turned, SlotOk, FillOk, BlockFor, NextSlot;
    ClosingAgrees(c, s, l, a);
    EnteredAgrees(c, Advanced(c, s, a), Turned(c, s, l), a.p);
  }

  lemma OutOfSequenceKept(c: Config, s: State, l: Books, a: Arrival)
    requires ValidConfig(c) && Agrees(c, s, l) && Nominal(c, a)
    requires Classify(c, s, a.p.mcnt).OutOfSequence?
    ensures Agrees(c, Step(c, s, a), Kept(c, s, l, a))
  {
    if Resets(c, s, a.p.mcnt) {
      ResetAgrees(c, s, l, a);
    } else {
      StepInv(c, s, a);
    }
  }

  /** Every step keeps the books in agreement with the ring. */
  lemma KeptAgrees(c: Config, s: State, l: Books, a: Arrival)
    requires ValidConfig(c) && Agrees(c, s, l) && Nominal(c, a)
    ensures Agrees(c, Step(c, s, a), Kept(c, s, l, a))
  {
    match Classify(c, s, a.p.mcnt)
    case Current => CurrentKept(c, s, l, a);
    case Closing => ClosingKept(c, s, l, a);
    case LatePacket =>
    case OutOfSequence => OutOfSequenceKept(c, s, l, a);
  }

  function NoBooks(c: Config, s: State): Books
    requires ValidConfig(c) && Shaped(c, s)
  {
    Books(seq(c.nBlocks, i requires 0 <= i < c.nBlocks => Book(s.blocks[i], [])), [])
  }

  /** The books after a run. */
  function KeptRun(c: Config, s: State, l: Books, run: seq<Arrival>): (m: Books)
    requires ValidConfig(c) && Shaped(c, s) && |l.held| == c.nBlocks
    requires forall a <- run :: Nominal(c, a)
    ensures |m.held| == c.nBlocks
  {
    if run == [] then l
    else Kept(c, Run(c, s, run[..|run| - 1]), KeptRun(c, s, l, run[..|run| - 1]), run[|run| - 1])
  }

  lemma StartAgrees(c: Config, blank: State)
    requires ValidConfig(c) && IsBlank(c, blank)
    ensures Agrees(c, Start(c, blank), NoBooks(c, blank))
  {
    var t, m := Start(c, blank), NoBooks(c, blank);
    StartInv(c, blank);
    BlockAfter(c, 0);
    OpenedSlot(c, t, m, t.blockI);
    OpenedSlot(c, t, m, NextSlot(c, t));
  }

  /** In every run the books stay in agreement with the ring. */
  lemma {:induction false} BooksAgree(c: Config, s: State, l: Books, run: seq<Arrival>)
    requires ValidConfig(c) && Agrees(c, s, l)
    requires forall a <- run :: Nominal(c, a)
    ensures Agrees(c, Run(c, s, run), KeptRun(c, s, l, run))
  {
    if run != [] {
      var front := run[..|run| - 1];
      BooksAgree(c, s, l, front);
      KeptAgrees(c, Run(c, s, front), KeptRun(c, s, l, front), run[|run| - 1]);
    }
  }

  /** No packet in any book counts for counter `x`. */
  ghost predicate NoneCounted(c: Config, m: Books, x: nat) {
    && (forall i :: 0 <= i < |m.held| ==> Count(c, m.held[i].log, x) == 0)
    && (forall k :: 0 <= k < |m.handed| ==> Count(c, m.handed[k].log, x) == 0)
  }

  lemma NoneCountedStep(c: Config, s: State, l: Books, a: Arrival, x: nat)
    requires ValidConfig(c) && Shaped(c, s) && |l.held| == c.nBlocks && NoneCounted(c, l, x)
    requires a.p.sid < c.nSources ==> Counter(c, a.p.sid) != x
    ensures NoneCounted(c, Kept(c, s, l, a), x)
  {
    assert s.blockI < c.nBlocks == |s.blocks|;
    hide BlockFor, Classify, Shaped, Count, Counter;
    var handed, after := l.(handed := l.handed + [l.held[s.blockI]]), (NextSlot(c, s) + 1) % c.nBlocks;
    NoneCountedEntry(c, l, a.p, x);
    NoneCountedOpened(c, s, handed, after, x);
    NoneCountedEntry(c, Turned(c, s, l), a.p, x);
    NoneCountedOpened(c, s, l, s.blockI, x);
    NoneCountedOpened(c, s, Opened(c, s, l, s.blockI), NextSlot(c, s), x);
    assert NoneCounted(c, handed, x) by { NoneCountedHanded(c, l, s.blockI, x); }
    hide NoneCounted, Opened, Entered;
  }

  lemma NoneCountedHanded(c: Config, l: Books, i: nat, x: nat)
    requires NoneCounted(c, l, x) && i < |l.held|
    ensures NoneCounted(c, l.(handed := l.handed + [l.held[i]]), x)
  {
  }

  lemma NoneCountedOpened(c: Config, s: State, l: Books, i: nat, x: nat)
    requires i < |s.blocks| && i < |l.held|
    ensures NoneCounted(c, l, x) ==> NoneCounted(c, Opened(c, s, l, i), x)
  {
    assert Count(c, [], x) == 0 by { CountNothing(c, x); }
  }

  lemma CountNothing(c: Config, x: nat)
    ensures Count(c, [], x) == 0
  {
  }

  lemma NoneCountedEntry(c: Config, l: Books, p: Packet, x: nat)
    requires ValidConfig(c) && |l.held| == c.nBlocks
    requires p.sid < c.nSources ==> Counter(c, p.sid) != x
    ensures NoneCounted(c, l, x) ==> NoneCounted(c, Entered(c, l, p), x)
  {
    CountSnoc(c, l.held[BlockFor(c, p.mcnt)].log, p, x);
  }

  /** A counter for which no packet comes is that of a block without packets. */
  lemma {:induction false} NoneCountedRun(c: Config, s: State, l: Books, run: seq<Arrival>, x: nat)
    requires ValidConfig(c) && Shaped(c, s) && |l.held| == c.nBlocks && NoneCounted(c, l, x)
    requires forall a <- run :: Nominal(c, a) && (a.p.sid < c.nSources ==> Counter(c, a.p.sid) != x)
    ensures NoneCounted(c, KeptRun(c, s, l, run), x)
  {
    hide Kept, Shaped, NoneCounted, Counter;
    if run != [] {
      var front := run[..|run| - 1];
      NoneCountedRun(c, s, l, front, x);
      NoneCountedStep(c, Run(c, s, front), KeptRun(c, s, l, front), run[|run| - 1], x);
    }
  }

  /** From start-up, the blocks filled without a packet for counter `x` miss nm of them. */
  lemma SilentCounter(c: Config, blank: State, run: seq<Arrival>, x: nat, k: nat)
    requires ValidConfig(c) && IsBlank(c, blank) && x < c.nBors
    requires forall a <- run :: Nominal(c, a) && (a.p.sid < c.nSources ==> Counter(c, a.p.sid) != x)
    requires k < |Run(c, Start(c, blank), run).released|
    ensures var missed := Run(c, Start(c, blank), run).released[k].header.missed; x < |missed| && missed[x] == c.nm
  {
    hide Run, KeptRun, Counter, SlotOk;
    var s, l := Start(c, blank), NoBooks(c, blank);
    StartAgrees(c, blank);
    BooksAgree(c, s, l, run);
    NoneCountedRun(c, s, l, run, x);
    var t, m := Run(c, s, run), KeptRun(c, s, l, run);
    assert FillOk(c, t.released[k], m.handed[k]);
    RingSpan(c);
  }

  // ---- exact loss accounting --------------------------------------------------

  /** The mcnts stored for counter `x`. */
  function Stored(c: Config, log: seq<Packet>, x: nat): set<nat> {
    set p <- log | Counter(c, p.sid) == x :: p.mcnt
  }

  /** The mcnts of the block at `start` that were never stored for counter `x`. */
  function NeverStored(c: Config, start: nat, log: seq<Packet>, x: nat): set<nat> {
    Span(start, c.nm) - Stored(c, log, x)
  }

  function Span(start: nat, n: nat): (s: set<nat>)
    ensures |s| == n
    ensures forall m :: m in s <==> start <= m < start + n
  {
    if n == 0 then {} else Span(start, n - 1) + {start + n - 1}
  }

  /** No mcnt was stored twice for counter `x`. */
  predicate NoRepeats(c: Config, log: seq<Packet>, x: nat) {
    forall i, j :: 0 <= i < j < |log| && Counter(c, log[i].sid) == x && Counter(c, log[j].sid) == x ==>
                     log[i].mcnt != log[j].mcnt
  }

  lemma {:induction false} DistinctCount(c: Config, log: seq<Packet>, x: nat)
    ensures |Stored(c, log, x)| <= Count(c, log, x)
    ensures |Stored(c, log, x)| == Count(c, log, x) <==> NoRepeats(c, log, x)
  {
    if log != [] {
      var front, last := log[..|log| - 1], log[|log| - 1];
      DistinctCount(c, front, x);
      assert log == front + [last];
      if Counter(c, last.sid) == x {
        assert Stored(c, log, x) == Stored(c, front, x) + {last.mcnt};
        RepeatsSnoc(c, front, last, x);
      } else {
        assert Stored(c, log, x) == Stored(c, front, x);
        assert NoRepeats(c, log, x) <==> NoRepeats(c, front, x);
      }
    }
  }

  lemma RepeatsSnoc(c: Config, front: seq<Packet>, last: Packet, x: nat)
    requires Counter(c, last.sid) == x
    ensures NoRepeats(c, front + [last], x) <==> NoRepeats(c, front, x) && last.mcnt !in Stored(c, front, x)
  {
    var log := front + [last];
    if NoRepeats(c, log, x) {
      forall i, j | 0 <= i < j < |front| && Counter(c, front[i].sid) == x && Counter(c, front[j].sid) == x
        ensures front[i].mcnt != front[j].mcnt
      {
        assert log[i] == front[i] && log[j] == front[j];
      }
      forall i | 0 <= i < |front| && Counter(c, front[i].sid) == x ensures front[i].mcnt != last.mcnt {
        assert log[i] == front[i] && log[|front|] == last;
      }
    }
  }

  /** The missed-packet counter of a block, held or handed on, is the number of
      mcnts of the block that were never stored for it, if and only if none was
      stored twice (the log being shorter than a counter's range). At FAST there is
      one counter, elsewhere each source has its own. */
  lemma ExactLoss(c: Config, mcnt: nat, missed: seq<nat>, log: seq<Packet>, x: nat)
    requires ValidConfig(c) && LogOk(c, mcnt, log) && MissedOk(c, missed, log)
    requires x < c.nBors && |log| < TWO64
    ensures missed[x] == |NeverStored(c, mcnt, log, x)| <==> NoRepeats(c, log, x)
    ensures NoRepeats(c, log, x) ==> missed[x] == c.nm - |Stored(c, log, x)|
    ensures Stored(c, log, x) == set p <- log | (if c.layout.Fast? then x == 0 else p.sid == x) :: p.mcnt
  {
    var n, st, gone := Count(c, log, x), |Stored(c, log, x)|, |NeverStored(c, mcnt, log, x)|;
    assert st + gone == c.nm by { StoredInSpan(c, mcnt, log, x); }
    assert st <= n && (st == n <==> NoRepeats(c, log, x)) by { DistinctCount(c, log, x); }
    assert c.nm < TWO63 by { RingSpan(c); }
    WrappedCount(c.nm, n, st);
  }

  lemma StoredInSpan(c: Config, mcnt: nat, log: seq<Packet>, x: nat)
    requires ValidConfig(c)
    requires forall p <- log :: BlockStart(c, p.mcnt) == mcnt
    ensures |Stored(c, log, x)| + |NeverStored(c, mcnt, log, x)| == c.nm
  {
    var st, all := Stored(c, log, x), Span(mcnt, c.nm);
    forall m <- st ensures m in all {
      var p :| p in log && p.mcnt == m;
      DivModSplit(p.mcnt, c.nm);
    }
    assert all == st + (all - st);
  }

  lemma WrappedCount(nm: nat, count: nat, distinct: nat)
    requires distinct <= nm < TWO63 && distinct <= count < TWO64
    ensures U64(nm as int - count) == nm - distinct <==> distinct == count
  {
  }

  /** The same of every block of every run. */
  lemma ExactLossInRuns(c: Config, blank: State, run: seq<Arrival>, k: nat, x: nat)
    requires ValidConfig(c) && IsBlank(c, blank)
    requires forall a <- run :: Nominal(c, a)
    requires var t, m := Run(c, Start(c, blank), run), KeptRun(c, Start(c, blank), NoBooks(c, blank), run);
             k < |t.released| && k < |m.handed| && |m.handed[k].log| < TWO64
    requires x < c.nBors
    ensures var f := Run(c, Start(c, blank), run).released[k];
            var log := KeptRun(c, Start(c, blank), NoBooks(c, blank), run).handed[k].log;
            && x < |f.header.missed|
            && (f.header.missed[x] == |NeverStored(c, f.header.mcnt, log, x)| <==> NoRepeats(c, log, x))
  {
    var s, l := Start(c, blank), NoBooks(c, blank);
    StartAgrees(c, blank);
    BooksAgree(c, s, l, run);
    var t, m := Run(c, s, run), KeptRun(c, s, l, run);
    assert FillOk(c, t.released[k], m.handed[k]);
    ExactLoss(c, t.released[k].header.mcnt, t.released[k].header.missed, m.handed[k].log, x);
  }

  /** One packet twice, and then one that closes the block. */
  function Doubled(c: Config, payload: seq<Word>): (run: seq<Arrival>)
    requires ValidConfig(c)
    ensures |run| == 3
  {
    var a := Arrival(Packet(0, 0, 0, 0, payload), 0, 0);
    [a, a, a.(p := a.p.(mcnt := 3 * (c.nm / 2)))]
  }

  /** It happens: after these packets from start-up, block 0 has a missed-packet counter
      one below the number of its mcnts that never came. */
  lemma RepeatMiscounts(c: Config, blank: State, payload: seq<Word>)
    requires ValidConfig(c) && IsBlank(c, blank) && |payload| == PayloadWords(c.layout)
    ensures var run := Doubled(c, payload);
            && (forall a <- run :: Nominal(c, a))
            && var f := Run(c, Start(c, blank), run).released;
            && |f| == 1 && |f[0].header.missed| == c.nBors
            && f[0].header.missed[0] == |NeverStored(c, 0, [run[0].p, run[1].p], 0)| - 1
  {
    var s, run := Start(c, blank), Doubled(c, payload);
    hide *;
    StartInv(c, blank);
    StartMissed(c, blank);
    DoubledIs(c, payload);
    RunThree(c, s, run[0], run[2]);
    DoubledMissed(c, s, run[0], run[2]);
    OneStored(c, run[0].p, run[1].p);
  }

  lemma DoubledIs(c: Config, payload: seq<Word>)
    requires ValidConfig(c) && |payload| == PayloadWords(c.layout)
    ensures var run := Doubled(c, payload);
            && (forall a <- run :: Nominal(c, a))
            && run == [run[0], run[0], run[2]]
            && run[0].p.mcnt == run[1].p.mcnt == run[0].p.sid == run[1].p.sid == 0 && run[2].p.mcnt == 3 * (c.nm / 2)
  {
  }

  lemma StartMissed(c: Config, blank: State)
    requires ValidConfig(c) && IsBlank(c, blank)
    ensures var s := Start(c, blank);
            && s.mcntStart == 0 && s.released == [] && s.blockI < |s.headers|
            && |s.headers[s.blockI].missed| == c.nBors && s.headers[s.blockI].missed[0] == c.nm
  {
    DivIs(0, 0, c.nm);
  }

  lemma OneStored(c: Config, p: Packet, q: Packet)
    requires ValidConfig(c) && p.mcnt == q.mcnt == p.sid == q.sid == 0
    ensures |NeverStored(c, 0, [p, q], 0)| == c.nm - 1
  {
    assert Stored(c, [p, q], 0) == {0};
    assert 0 in Span(0, c.nm);
  }

  lemma DoubledMissed(c: Config, s: State, a: Arrival, z: Arrival)
    requires ValidConfig(c) && Inv(c, s) && Nominal(c, a) && Nominal(c, z)
    requires s.mcntStart == a.p.mcnt == a.p.sid == 0 && z.p.mcnt == 3 * (c.nm / 2) && s.released == []
    requires s.blockI < |s.headers| && |s.headers[s.blockI].missed| == c.nBors && s.headers[s.blockI].missed[0] == c.nm
    ensures var f := Step(c, Step(c, Step(c, s, a), a), z).released;
            |f| == 1 && |f[0].header.missed| == c.nBors && f[0].header.missed[0] == c.nm - 2
  {
    assert Shaped(c, s);
    hide Step, Inv, Shaped;
    FirstPacket(c, s, a);
    FirstPacket(c, Step(c, s, a), a);
    LastPacket(c, Step(c, Step(c, s, a), a), z);
  }

  lemma RunThree(c: Config, s: State, a: Arrival, z: Arrival)
    requires ValidConfig(c) && Shaped(c, s) && Nominal(c, a) && Nominal(c, z)
    ensures Run(c, s, [a, a, z]) == Step(c, Step(c, Step(c, s, a), a), z)
  {
    hide Step, Shaped, Nominal;
    assert [a, a, z][..2] == [a, a] && [a, a][..1] == [a] && [a][..0] == [];
    assert Run(c, s, [a]) == Step(c, s, a);
    assert Run(c, s, [a, a]) == Step(c, Run(c, s, [a]), a);
  }

  lemma FirstPacket(c: Config, s: State, a: Arrival)
    requires ValidConfig(c) && Inv(c, s) && Nominal(c, a) && s.mcntStart == a.p.mcnt == a.p.sid == 0
    ensures var t, i := Step(c, s, a), s.blockI;
            && Inv(c, t) && Shaped(c, t) && t.mcntStart == 0 && t.released == s.released && t.blockI == i
            && |t.headers[i].missed| == |s.headers[i].missed| == c.nBors
            && t.headers[i].missed[0] == U64(s.headers[i].missed[0] as int - 1)
  {
    Distances(c, s, a.p.mcnt);
    StoreInv(c, s, a.p);
  }

  lemma LastPacket(c: Config, s: State, a: Arrival)
    requires ValidConfig(c) && Inv(c, s) && Nominal(c, a) && s.mcntStart == 0 && a.p.mcnt == 3 * (c.nm / 2)
    ensures var t := Step(c, s, a);
            |t.released| == |s.released| + 1 && t.released[|s.released|].header.missed == s.headers[s.blockI].missed
  {
    Distances(c, s, a.p.mcnt);
  }

  // ---- contents ------------------------------------------------------------------

  /** All packets carry the payload one source stream has for their mcnt. */
  ghost predicate FromStream(c: Config, log: seq<Packet>, stream: (nat, nat) -> seq<Word>) {
    forall p <- log :: p.payload == stream(p.mcnt, Key(c.layout, p.sid))
  }

  /** Every word whose packet was stored holds that packet's word, in whatever
      order packets came; every other word is what it was before. */
  lemma Contents(c: Config, mcnt: nat, data: seq<Word>, b: Book, stream: (nat, nat) -> seq<Word>, w: nat)
    requires ValidConfig(c) && Roomy(c) && LogOk(c, mcnt, b.log) && DataOk(c, data, b) && FromStream(c, b.log, stream)
    requires w < UsedWords(c.layout, c.nm, c.nSources)
    ensures var o := Owner(c.layout, c.nm, w);
            && |data| == |b.base| == c.blockWords
            && (Logged(c, b.log, mcnt + o.m, o.key) ==>
                  o.j < |stream(mcnt + o.m, o.key)| && data[w] == stream(mcnt + o.m, o.key)[o.j])
            && (!Logged(c, b.log, mcnt + o.m, o.key) ==> data[w] == b.base[w])
  {
    hide Owner, UsedWords, PlacedAll, BlockStart, Whole;
    var ps := Pieces(c, b.log);
    var local := (m: nat, key: nat) => stream(mcnt + m, key);
    var o := Owner(c.layout, c.nm, w);
    PiecesFromStream(c, mcnt, b.log, stream);
    PlacementSurjective(c.layout, c.nm, c.nSources, w);
    OrderIndependent(c.layout, c.nm, c.nSources, b.base, ps, local, w);
    SamePacket(c, mcnt, b.log, o.m, o.key);
  }

  lemma PiecesFromStream(c: Config, mcnt: nat, log: seq<Packet>, stream: (nat, nat) -> seq<Word>)
    requires ValidConfig(c) && Whole(c, log) && FromStream(c, log, stream)
    requires forall p <- log :: BlockStart(c, p.mcnt) == mcnt
    ensures forall q <- Pieces(c, log) ::
              q.payload == stream(mcnt + q.m, q.key) && |q.payload| == PayloadWords(c.layout)
  {
    hide PayloadWords;
    forall q <- Pieces(c, log)
      ensures q.payload == stream(mcnt + q.m, q.key) && |q.payload| == PayloadWords(c.layout)
    {
      var i :| 0 <= i < |log| && Pieces(c, log)[i] == q;
      assert log[i] in log;
    }
  }

  ghost predicate Logged(c: Config, log: seq<Packet>, mcnt: nat, key: nat) {
    exists p <- log :: p.mcnt == mcnt && Key(c.layout, p.sid) == key
  }

  lemma SamePacket(c: Config, mcnt: nat, log: seq<Packet>, m: nat, key: nat)
    requires ValidConfig(c) && Whole(c, log)
    requires forall p <- log :: BlockStart(c, p.mcnt) == mcnt
    ensures Logged(c, log, mcnt + m, key) <==> exists q <- Pieces(c, log) :: q.m == m && q.key == key
  {
    var ps := Pieces(c, log);
    if Logged(c, log, mcnt + m, key) {
      var i :| 0 <= i < |log| && log[i].mcnt == mcnt + m && Key(c.layout, log[i].sid) == key;
      assert BlockStart(c, log[i].mcnt) == mcnt;
      assert ps[i] in ps;
    }
    if q :| q in ps && q.m == m && q.key == key {
      var i :| 0 <= i < |ps| && ps[i] == q;
      assert BlockStart(c, log[i].mcnt) == mcnt;
      assert log[i] in log;
    }
  }
}
