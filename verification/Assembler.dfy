/** The packet-to-ring assembler of s6_pktsock_thread.cpp as a state machine on
    values: what one packet does to the assembler and to the ring of input blocks. */
module Assembler {
  import opened Arith
  import opened Placement

  /** Compile-time constants of one instrument: mcnts per block, ring size,
      missed-packet counters per block, source nodes, placement, block size. */
  datatype Config = Config(nm: nat, nBlocks: nat, nBors: nat, nSources: nat, layout: Layout, blockWords: nat)

  /** What holds of the constants of every build. */
  predicate ValidConfig(c: Config) {
    && c.nm >= 2 && c.nm % 2 == 0
    && c.nBlocks >= 2
    && c.nm <= 0x1_0000_0000 && c.nBlocks <= 0x1_0000
    && c.nBors >= 1 && c.nSources >= 1
    && (c.layout.Fast? || c.nBors == c.nSources)
    && WholeWords(c.layout)
  }

  /** The data area of a block has room for all expected packets. */
  predicate Roomy(c: Config)
    requires ValidConfig(c)
  {
    UsedWords(c.layout, c.nm, c.nSources) <= c.blockWords
  }

  datatype Packet = Packet(mcnt: nat, pchan: nat, nchan: nat, sid: nat, payload: seq<Word>)

  /** A packet with the time the clock shows while it is processed. */
  datatype Arrival = Arrival(p: Packet, sec: nat, nsec: nat)

  /** A packet of nominal size; mcnts are at most 56 bits wide on the wire. */
  predicate Nominal(c: Config, a: Arrival)
    requires ValidConfig(c)
  {
    a.p.mcnt < TWO56 && |a.p.payload| == PayloadWords(c.layout)
  }

  datatype Header = Header(mcnt: nat, chanId: nat, numChan: nat, sid: nat, sec: nat, nsec: nat, missed: seq<nat>)

  /** A block as it was handed to the next thread. */
  datatype Fill = Fill(slot: nat, header: Header, data: seq<Word>)

  /** The assembler's own variables, the input ring, and three observations that
      no decision depends on: the blocks marked filled so far, and how often
      each of the two warnings of set_block_filled was issued. */
  datatype State = State(
    pchan: nat, nchan: nat,
    mcntStart: nat,
    mcntLogLate: nat,
    outOfSeq: nat,
    blockI: nat,
    counters: seq<int>,
    lastFilled: int,
    headers: seq<Header>,
    blocks: seq<seq<Word>>,
    released: seq<Fill>,
    orderWarnings: nat,
    indexWarnings: nat)

  predicate Shaped(c: Config, s: State)
    requires ValidConfig(c)
  {
    && |s.counters| == |s.headers| == |s.blocks| == c.nBlocks
    && s.blockI < c.nBlocks
    && -1 <= s.lastFilled
    && (forall i :: 0 <= i < c.nBlocks ==> |s.headers[i].missed| == c.nBors)
    && (forall i :: 0 <= i < c.nBlocks ==> |s.blocks[i]| == c.blockWords)
  }

  function BlockFor(c: Config, mcnt: nat): (i: nat)
    requires ValidConfig(c)
    ensures i < c.nBlocks
  {
    Slot(BlockNo(c, mcnt), c.nBlocks)
  }

  /** Number of the block that `mcnt` belongs to, counted from mcnt 0. */
  function BlockNo(c: Config, mcnt: nat): nat
    requires ValidConfig(c)
  {
    mcnt / c.nm
  }

  /** Start of the block that `mcnt` belongs to. */
  function BlockStart(c: Config, mcnt: nat): nat
    requires ValidConfig(c)
  {
    DivModSplit(mcnt, c.nm);
    mcnt - mcnt % c.nm
  }

  function NextSlot(c: Config, s: State): (i: nat)
    requires ValidConfig(c)
    ensures i < c.nBlocks
  {
    (s.blockI + 1) % c.nBlocks
  }

  function MaxOutOfSeq(c: Config): nat { 2 * c.nBors }

  function LateThreshold(c: Config): nat { 2 * c.nm * c.nBlocks }

  /** Index of the missed-packet counter of a source. */
  function Counter(c: Config, sid: nat): nat {
    if c.layout.Fast? then 0 else sid
  }

  // ---- initialize_block ------------------------------------------------------

  function InitBlock(c: Config, s: State, mcnt: nat, pchan: nat, nchan: nat, sid: nat): (t: State)
    requires ValidConfig(c) && Shaped(c, s)
    ensures Shaped(c, t)
  {
    var i := BlockFor(c, mcnt);
    s.(headers := s.headers[i := s.headers[i].(mcnt := BlockStart(c, mcnt), chanId := pchan, numChan := nchan,
                                               sid := sid,
                                               missed := seq(c.nBors, _ => c.nm))])
  }

  // ---- the packet closes the current block ------------------------------------

  /** Time stamp and set_block_filled, then advance to the next block. */
  function Release(c: Config, s: State, sec: nat, nsec: nat): (t: State)
    requires ValidConfig(c) && Shaped(c, s)
    ensures Shaped(c, t)
  {
    var stamped := s.headers[s.blockI := s.headers[s.blockI].(sec := sec, nsec := nsec)];
    var slot := BlockFor(c, s.mcntStart);
    var expected := (s.lastFilled + 1) % c.nBlocks;
    s.(headers := stamped,
       lastFilled := expected,
       released := s.released + [Fill(slot, stamped[slot], s.blocks[slot])],
       orderWarnings := s.orderWarnings + if expected != slot then 1 else 0,
       indexWarnings := s.indexWarnings + if slot != s.blockI then 1 else 0,
       mcntStart := U64(s.mcntStart + c.nm),
       blockI := (s.blockI + 1) % c.nBlocks,
       pchan := 0, nchan := 0)
  }

  /** After the wait for the slot behind the new current one. */
  function Acquire(c: Config, s: State, p: Packet): (t: State)
    requires ValidConfig(c) && Shaped(c, s)
    ensures Shaped(c, t)
  {
    var t := InitBlock(c, s, U64(p.mcnt + c.nm), p.pchan, p.nchan, p.sid);
    t.(counters := t.counters[NextSlot(c, s) := 0])
  }

  /** The current block handed on and the slot behind the next one taken. */
  function Advanced(c: Config, s: State, a: Arrival): (t: State)
    requires ValidConfig(c) && Shaped(c, s)
    ensures Shaped(c, t)
  {
    Acquire(c, Release(c, s, a.sec, a.nsec), a.p)
  }

  // ---- the packet is for the current or the next block ------------------------

  function Store(c: Config, s: State, p: Packet): (t: State)
    requires ValidConfig(c) && Shaped(c, s)
    requires |p.payload| == PayloadWords(c.layout)
    ensures Shaped(c, t)
  {
    var i := BlockFor(c, p.mcnt);
    var t := s.(outOfSeq := 0, counters := s.counters[i := s.counters[i] + 1]);
    if p.sid >= c.nSources then t
    else
      var u := if t.nchan == 0 then t.(nchan := p.nchan, pchan := p.pchan) else t;
      var k := Counter(c, p.sid);
      var h := u.headers[i];
      u.(headers := u.headers[i := h.(missed := h.missed[k := U64(h.missed[k] as int - 1)])],
         blocks := u.blocks[i := Placed(c.layout, c.nm, c.nSources, u.blocks[i],
                                        p.mcnt % c.nm, Key(c.layout, p.sid), p.payload)])
  }

  // ---- the packet is out of sequence -------------------------------------------

  /** The mcnt a reset moves to before rounding down. */
  function ResetTarget(c: Config, s: State, mcnt: nat): nat
    requires ValidConfig(c) && Shaped(c, s)
  {
    var i := BlockFor(c, mcnt);
    if s.blockI > i then U64(mcnt + c.nm * (s.blockI - i))
    else if s.blockI < i then U64(mcnt + c.nm * (s.blockI + c.nBlocks - i))
    else mcnt
  }

  /** The two held blocks recycled for mcnts from `start` on. */
  function Restarted(c: Config, s: State, start: nat, p: Packet): (t: State)
    requires ValidConfig(c) && Shaped(c, s)
    ensures Shaped(c, t)
  {
    var b := BlockFor(c, start);
    var t := s.(mcntStart := start, mcntLogLate := U64(start + c.nm), blockI := b, pchan := 0, nchan := 0);
    var u := InitBlock(c, t, start, p.pchan, p.nchan, p.sid);
    var v := InitBlock(c, u, U64(start + c.nm), p.pchan, p.nchan, p.sid);
    v.(counters := v.counters[b := 0][(b + 1) % c.nBlocks := 0])
  }

  function Reset(c: Config, s: State, p: Packet): (t: State)
    requires ValidConfig(c) && Shaped(c, s)
    ensures Shaped(c, t)
  {
    Restarted(c, s, BlockStart(c, ResetTarget(c, s, p.mcnt)), p)
  }

  // ---- process_packet -----------------------------------------------------------

  datatype Verdict = Current | Closing | LatePacket | OutOfSequence

  /** How a packet is classed: `dist` is its signed distance from the start of
      the current block. */
  function Classify(c: Config, s: State, mcnt: nat): Verdict {
    var dist := SignedDistance(mcnt, s.mcntStart);
    if 0 <= dist < 2 * c.nm then
      if dist >= 3 * (c.nm / 2) then Closing else Current
    else if dist < 0 && dist > -(LateThreshold(c) as int) then LatePacket
    else OutOfSequence
  }

  predicate Accepted(v: Verdict) {
    v.Current? || v.Closing?
  }

  /** Whether an out-of-sequence packet is one too many. */
  predicate Resets(c: Config, s: State, mcnt: nat) {
    Classify(c, s, mcnt).OutOfSequence? && s.outOfSeq + 1 > MaxOutOfSeq(c)
  }

  function Step(c: Config, s: State, a: Arrival): (t: State)
    requires ValidConfig(c) && Shaped(c, s) && Nominal(c, a)
    ensures Shaped(c, t)
  {
    match Classify(c, s, a.p.mcnt)
    case Current => Store(c, s, a.p)
    case Closing => Store(c, Advanced(c, s, a), a.p)
    case LatePacket => s
    case OutOfSequence =>
      var t := Bumped(s);
      if t.outOfSeq > MaxOutOfSeq(c) then Reset(c, t, a.p) else t
  }

  /** What process_packet returns: -1 as a uint64_t, except for a packet of a valid source
      that closes a block. */
  function Returned(c: Config, s: State, p: Packet): nat {
    if Classify(c, s, p.mcnt).Closing? && p.sid < c.nSources then s.mcntStart else U64(-1)
  }

  // ---- start-up ------------------------------------------------------------------

  /** Before the thread touches the ring: every slot is whatever it is. */
  function Blank(c: Config, headers: seq<Header>, blocks: seq<seq<Word>>): State {
    State(0, 0, 0, c.nm, 0, 0, seq(c.nBlocks, _ => 0), -1, headers, blocks, [], 0, 0)
  }

  predicate IsBlank(c: Config, s: State)
    requires ValidConfig(c)
  {
    s == Blank(c, s.headers, s.blocks) && Shaped(c, s)
  }

  /** After the first two blocks have been acquired. */
  function Start(c: Config, s: State): (t: State)
    requires ValidConfig(c) && Shaped(c, s)
    ensures Shaped(c, t)
  {
    InitBlock(c, InitBlock(c, s, 0, 0, 0, 0), c.nm, 0, 0, 0)
  }

  /** The state after the packets of a run, from start-up. */
  function Run(c: Config, s: State, run: seq<Arrival>): (t: State)
    requires ValidConfig(c) && Shaped(c, s)
    requires forall a <- run :: Nominal(c, a)
    ensures Shaped(c, t)
  {
    if run == [] then s else Step(c, Run(c, s, run[..|run| - 1]), run[|run| - 1])
  }

  // ================================================================================
  // Properties
  // ================================================================================

  /** The thread holds the current and the next slot, each labelled with the mcnt
      its position stands for, and slots have been given away in ring order. */
  predicate Inv(c: Config, s: State)
    requires ValidConfig(c)
  {
    && Closed(c, s)
    && s.headers[NextSlot(c, s)].mcnt == s.mcntStart + c.nm
  }

  /** The part of the invariant that also holds while the thread waits for a slot. */
  predicate Closed(c: Config, s: State)
    requires ValidConfig(c)
  {
    && Shaped(c, s)
    && s.mcntStart % c.nm == 0
    && s.mcntStart < TWO56 + c.nBlocks * c.nm
    && s.blockI == BlockFor(c, s.mcntStart)
    && s.blockI == Slot(|s.released|, c.nBlocks)
    && (s.lastFilled + 1) % c.nBlocks == s.blockI
    && s.orderWarnings == 0 && s.indexWarnings == 0
    && s.headers[s.blockI].mcnt == s.mcntStart
    && (forall k :: 0 <= k < |s.released| ==> s.released[k].slot == Slot(k, c.nBlocks))
  }

  /** All mcnts from a block's start to the next block's share its slot and start. */
  lemma InBlock(c: Config, start: nat, mcnt: nat)
    requires ValidConfig(c)
    requires start % c.nm == 0
    requires start <= mcnt < start + c.nm
    ensures BlockFor(c, mcnt) == BlockFor(c, start)
    ensures BlockStart(c, mcnt) == start
  {
    DivModSplit(start, c.nm);
    DivIs(mcnt, BlockNo(c, start), c.nm);
  }

  /** The next block has the next slot. */
  lemma BlockAfter(c: Config, start: nat)
    requires ValidConfig(c)
    requires start % c.nm == 0
    ensures (start + c.nm) % c.nm == 0
    ensures BlockFor(c, start + c.nm) == (BlockFor(c, start) + 1) % c.nBlocks
  {
    var k := BlockNo(c, start);
    DivModSplit(start, c.nm);
    assert (k + 1) * c.nm + 0 == start + c.nm;
    DivModUnique(k + 1, 0, c.nm);
    SlotNext(k, c.nBlocks);
  }

  lemma RingSpan(c: Config)
    requires ValidConfig(c)
    ensures c.nm <= c.nBlocks * c.nm <= 0x1_0000_0000_0000
  {
    MulMono(1, c.nBlocks, c.nm);
    MulMono(c.nBlocks, 0x1_0000, c.nm);
  }

  /** Distance and block of a packet, in plain arithmetic. */
  lemma Distances(c: Config, s: State, mcnt: nat)
    requires ValidConfig(c) && Closed(c, s)
    requires mcnt < TWO56
    ensures SignedDistance(mcnt, s.mcntStart) == mcnt - s.mcntStart
    ensures U64(mcnt + c.nm) == mcnt + c.nm
    ensures U64(s.mcntStart + c.nm) == s.mcntStart + c.nm
    ensures s.mcntStart <= mcnt < s.mcntStart + c.nm ==>
              BlockFor(c, mcnt) == s.blockI && BlockStart(c, mcnt) == s.mcntStart
    ensures s.mcntStart + c.nm <= mcnt < s.mcntStart + 2 * c.nm ==>
              BlockFor(c, mcnt) == NextSlot(c, s) && BlockStart(c, mcnt) == s.mcntStart + c.nm
  {
    RingSpan(c);
    BlockAfter(c, s.mcntStart);
    if s.mcntStart <= mcnt < s.mcntStart + c.nm {
      InBlock(c, s.mcntStart, mcnt);
    } else if s.mcntStart + c.nm <= mcnt < s.mcntStart + 2 * c.nm {
      InBlock(c, s.mcntStart + c.nm, mcnt);
    }
  }

  /** Both held slots are different slots. */
  lemma HeldDistinct(c: Config, s: State)
    requires ValidConfig(c) && Shaped(c, s)
    ensures NextSlot(c, s) != s.blockI
  {
    SlotSmall(s.blockI, c.nBlocks);
    SlotNext(s.blockI, c.nBlocks);
    SlotDistinct(s.blockI, s.blockI + 1, c.nBlocks);
  }

  /** Start-up leaves the thread holding slots 0 and 1 for mcnts 0 and nm. */
  lemma StartInv(c: Config, s: State)
    requires ValidConfig(c) && IsBlank(c, s)
    ensures Inv(c, Start(c, s))
  {
    var n := c.nBlocks;
    DivIs(0, 0, c.nm);
    DivModUnique(1, 0, c.nm);
    SlotSmall(0, n);
    SlotSmall(1, n);
  }

  lemma StoreInv(c: Config, s: State, p: Packet)
    requires ValidConfig(c) && Inv(c, s)
    requires |p.payload| == PayloadWords(c.layout)
    ensures Inv(c, Store(c, s, p))
  {
  }

  lemma ReleaseClosed(c: Config, s: State, sec: nat, nsec: nat, mcnt: nat)
    requires ValidConfig(c) && Inv(c, s)
    requires mcnt < TWO56 && s.mcntStart + 3 * (c.nm / 2) <= mcnt
    ensures Closed(c, Release(c, s, sec, nsec))
    ensures Release(c, s, sec, nsec).mcntStart == s.mcntStart + c.nm
  {
    hide Slot, BlockFor, BlockStart, Release, NextSlot, U64, Shaped;
    Distances(c, s, mcnt);
    HeldDistinct(c, s);
    ReleaseParts(c, s, sec, nsec);
    var t := Release(c, s, sec, nsec);
    assert t.blockI == BlockFor(c, t.mcntStart) && t.mcntStart % c.nm == 0 by {
      BlockAfter(c, s.mcntStart);
    }
    assert t.blockI == Slot(|t.released|, c.nBlocks) by {
      SlotNext(|s.released|, c.nBlocks);
    }
    assert t.mcntStart < TWO56 + c.nBlocks * c.nm by {
      RingSpan(c);
    }
    ReleasedSlots(c, s, t);
  }

  lemma ReleasedSlots(c: Config, s: State, t: State)
    requires ValidConfig(c) && Closed(c, s)
    requires |t.released| == |s.released| + 1 && t.released[..|s.released|] == s.released
    requires t.released[|s.released|].slot == s.blockI
    ensures forall k :: 0 <= k < |t.released| ==> t.released[k].slot == Slot(k, c.nBlocks)
  {
    hide Slot, BlockFor, Shaped;
    forall k | 0 <= k < |t.released| ensures t.released[k].slot == Slot(k, c.nBlocks) {
      assert k < |s.released| ==> t.released[k] == t.released[..|s.released|][k];
    }
  }

  lemma ReleaseParts(c: Config, s: State, sec: nat, nsec: nat)
    requires ValidConfig(c) && Inv(c, s)
    requires NextSlot(c, s) != s.blockI
    ensures var t := Release(c, s, sec, nsec);
            && t.blockI == NextSlot(c, s) == (s.blockI + 1) % c.nBlocks
            && t.mcntStart == U64(s.mcntStart + c.nm)
            && t.lastFilled == s.blockI
            && t.orderWarnings == 0 && t.indexWarnings == 0
            && t.headers[t.blockI] == s.headers[t.blockI]
            && |t.released| == |s.released| + 1 && t.released[..|s.released|] == s.released
            && t.released[|s.released|].slot == s.blockI
  {
  }

  lemma AcquireInv(c: Config, s: State, p: Packet)
    requires ValidConfig(c) && Closed(c, s)
    requires p.mcnt < TWO56 && s.mcntStart <= p.mcnt < s.mcntStart + c.nm
    ensures Inv(c, Acquire(c, s, p))
    ensures BlockFor(c, U64(p.mcnt + c.nm)) == NextSlot(c, s)
  {
    Distances(c, s, p.mcnt);
    HeldDistinct(c, s);
    BlockAfter(c, s.mcntStart);
    InBlock(c, s.mcntStart + c.nm, p.mcnt + c.nm);
  }

  /** How many blocks a reset skips to come back to the slot it already holds. */
  function Skip(c: Config, s: State, mcnt: nat): (d: nat)
    requires ValidConfig(c) && Shaped(c, s)
    ensures d < c.nBlocks
  {
    var i := BlockFor(c, mcnt);
    if s.blockI >= i then s.blockI - i else s.blockI + c.nBlocks - i
  }

  lemma ResetStart(c: Config, s: State, mcnt: nat)
    requires ValidConfig(c) && Closed(c, s)
    requires mcnt < TWO56
    ensures var start := BlockStart(c, ResetTarget(c, s, mcnt));
            && start == (BlockNo(c, mcnt) + Skip(c, s, mcnt)) * c.nm
            && start < TWO56 + c.nBlocks * c.nm
            && start % c.nm == 0
            && BlockFor(c, start) == s.blockI
            && BlockNo(c, start) == BlockNo(c, mcnt) + Skip(c, s, mcnt)
  {
    ResetRounds(c, s, mcnt);
    ResetTargetIs(c, s, mcnt);
    SlotReach(BlockNo(c, mcnt), s.blockI, c.nBlocks);
    BlockNumber(c, BlockStart(c, ResetTarget(c, s, mcnt)), BlockNo(c, mcnt) + Skip(c, s, mcnt));
  }

  lemma BlockNumber(c: Config, start: nat, k: nat)
    requires ValidConfig(c)
    requires start == k * c.nm
    ensures start % c.nm == 0 && BlockNo(c, start) == k
    ensures BlockFor(c, start) == Slot(k, c.nBlocks)
  {
    DivModUnique(k, 0, c.nm);
  }

  lemma ResetRounds(c: Config, s: State, mcnt: nat)
    requires ValidConfig(c) && Shaped(c, s)
    requires mcnt < TWO56
    ensures BlockStart(c, ResetTarget(c, s, mcnt)) == (BlockNo(c, mcnt) + Skip(c, s, mcnt)) * c.nm
    ensures BlockStart(c, ResetTarget(c, s, mcnt)) <= ResetTarget(c, s, mcnt)
  {
    ResetTargetIs(c, s, mcnt);
    RowShift(mcnt, Skip(c, s, mcnt), c.nm, ResetTarget(c, s, mcnt));
    DivModSplit(ResetTarget(c, s, mcnt), c.nm);
  }

  lemma ResetTargetIs(c: Config, s: State, mcnt: nat)
    requires ValidConfig(c) && Shaped(c, s)
    requires mcnt < TWO56
    ensures 0 <= c.nm * Skip(c, s, mcnt) <= c.nBlocks * c.nm - c.nm
    ensures ResetTarget(c, s, mcnt) == mcnt + c.nm * Skip(c, s, mcnt)
  {
    SkipSpan(Skip(c, s, mcnt), c.nBlocks, c.nm);
    RingSpan(c);
  }

  lemma SkipSpan(d: nat, n: nat, nm: nat)
    requires d < n
    ensures nm * d + nm <= n * nm
  {
    MulMono(d + 1, n, nm);
    assert (d + 1) * nm == nm * d + nm;
  }

  /** Rounding down after a shift by whole blocks. */
  lemma RowShift(mcnt: nat, d: nat, nm: nat, target: nat)
    requires nm > 0
    requires target == mcnt + nm * d
    ensures target - target % nm == (mcnt / nm + d) * nm
  {
    DivModSplit(mcnt, nm);
    assert target == (mcnt / nm + d) * nm + mcnt % nm;
    DivModUnique(mcnt / nm + d, mcnt % nm, nm);
  }

  /** Going from the slot of `k` to slot `b` by the shorter way round. */
  lemma SlotReach(k: nat, b: nat, n: nat)
    requires b < n
    ensures var d := if b >= Slot(k, n) then b - Slot(k, n) else b + n - Slot(k, n);
            Slot(k + d, n) == b
  {
    DivModSplit(k, n);
    var q, i := k / n, Slot(k, n);
    if b >= i {
      DivModUnique(q, b, n);
    } else {
      assert k + (b + n - i) == (q + 1) * n + b;
      DivModUnique(q + 1, b, n);
    }
  }

  lemma ResetInv(c: Config, s: State, p: Packet)
    requires ValidConfig(c) && Inv(c, s)
    requires p.mcnt < TWO56
    ensures Inv(c, Reset(c, s, p))
    ensures Reset(c, s, p).blockI == s.blockI
  {
    var start := BlockStart(c, ResetTarget(c, s, p.mcnt));
    ResetStart(c, s, p.mcnt);
    RelabelInv(c, s, start, p);
  }

  /** Restarting at any block start that maps to the held slot keeps the invariant. */
  lemma RelabelInv(c: Config, s: State, start: nat, p: Packet)
    requires ValidConfig(c) && Inv(c, s)
    requires start % c.nm == 0 && start < TWO56 + c.nBlocks * c.nm && BlockFor(c, start) == s.blockI
    ensures Inv(c, Restarted(c, s, start, p))
  {
    HeldDistinct(c, s);
    RingSpan(c);
    BlockAfter(c, start);
    InBlock(c, start + c.nm, start + c.nm);
    InBlock(c, start, start);
  }

  /** One more packet out of sequence. */
  function Bumped(s: State): State { s.(outOfSeq := s.outOfSeq + 1) }

  lemma BumpedInv(c: Config, s: State)
    requires ValidConfig(c) && Inv(c, s)
    ensures Inv(c, Bumped(s))
  {
  }

  /** Whatever the packet, the two-slot invariant is kept. */
  lemma StepInv(c: Config, s: State, a: Arrival)
    requires ValidConfig(c) && Inv(c, s) && Nominal(c, a)
    ensures Inv(c, Step(c, s, a))
  {
    Distances(c, s, a.p.mcnt);
    match Classify(c, s, a.p.mcnt)
    case Current => StoreInv(c, s, a.p);
    case Closing =>
      ReleaseClosed(c, s, a.sec, a.nsec, a.p.mcnt);
      var r := Release(c, s, a.sec, a.nsec);
      AcquireInv(c, r, a.p);
      StoreInv(c, Acquire(c, r, a.p), a.p);
    case LatePacket =>
    case OutOfSequence =>
      var t := Bumped(s);
      if t.outOfSeq > MaxOutOfSeq(c) {
        ResetInv(c, t, a.p);
      }
  }

  /** In every run from start-up, with any loss, duplication, reordering and any
      number of resets, blocks are handed on in strict ring order, the current
      block is where its mcnt and the ring order say, and neither warning of
      set_block_filled is ever issued. */
  lemma {:induction false} RingOrder(c: Config, s: State, run: seq<Arrival>)
    requires ValidConfig(c) && IsBlank(c, s)
    requires forall a <- run :: Nominal(c, a)
    ensures var t := Run(c, Start(c, s), run);
            && Inv(c, t)
            && t.orderWarnings == 0 && t.indexWarnings == 0
            && t.blockI == BlockFor(c, t.mcntStart) == (t.lastFilled + 1) % c.nBlocks
            && forall k :: 0 <= k < |t.released| ==> t.released[k].slot == k % c.nBlocks
  {
    hide Step, Start, Shaped, Inv, BlockFor;
    if run == [] {
      StartInv(c, s);
    } else {
      var front := run[..|run| - 1];
      RingOrder(c, s, front);
      StepInv(c, Run(c, Start(c, s), front), run[|run| - 1]);
    }
    ReleasedInOrder(c, Run(c, Start(c, s), run));
    InvOrder(c, Run(c, Start(c, s), run));
  }

  lemma InvOrder(c: Config, t: State)
    requires ValidConfig(c) && Inv(c, t)
    ensures t.orderWarnings == 0 && t.indexWarnings == 0
    ensures t.blockI == BlockFor(c, t.mcntStart) == (t.lastFilled + 1) % c.nBlocks
  {
  }

  lemma ReleasedInOrder(c: Config, t: State)
    requires ValidConfig(c) && Inv(c, t)
    ensures forall k :: 0 <= k < |t.released| ==> t.released[k].slot == k % c.nBlocks
  {
    forall k | 0 <= k < |t.released| ensures t.released[k].slot == k % c.nBlocks {
      assert t.released[k].slot == Slot(k, c.nBlocks);
    }
  }

  /** Slot `i` keeps its header, data and packet counter. */
  predicate Untouched(c: Config, s: State, t: State, i: nat)
    requires ValidConfig(c) && Shaped(c, s) && Shaped(c, t) && i < c.nBlocks
  {
    t.headers[i] == s.headers[i] && t.blocks[i] == s.blocks[i] && t.counters[i] == s.counters[i]
  }

  lemma RestartWritesHeldSlots(c: Config, s: State, p: Packet, i: nat)
    requires ValidConfig(c) && Inv(c, s) && p.mcnt < TWO56
    requires i < c.nBlocks && i != s.blockI && i != NextSlot(c, s)
    ensures Untouched(c, s, Reset(c, s, p), i)
  {
    var start := BlockStart(c, ResetTarget(c, s, p.mcnt));
    ResetStart(c, s, p.mcnt);
    RestartedElsewhere(c, s, start, p, i);
  }

  lemma RestartedElsewhere(c: Config, s: State, start: nat, p: Packet, i: nat)
    requires ValidConfig(c) && Shaped(c, s)
    requires start % c.nm == 0 && start < TWO56 + c.nBlocks * c.nm && BlockFor(c, start) == s.blockI
    requires i < c.nBlocks && i != s.blockI && i != NextSlot(c, s)
    ensures Untouched(c, s, Restarted(c, s, start, p), i)
  {
    RingSpan(c);
    BlockAfter(c, start);
  }

  lemma ClosingWritesHeldSlots(c: Config, s: State, a: Arrival, i: nat)
    requires ValidConfig(c) && Inv(c, s) && Nominal(c, a)
    requires Classify(c, s, a.p.mcnt).Closing?
    requires i < c.nBlocks && i != s.blockI && i != NextSlot(c, s) && i != (NextSlot(c, s) + 1) % c.nBlocks
    ensures Untouched(c, s, Store(c, Advanced(c, s, a), a.p), i)
  {
    hide BlockFor, BlockStart;
    Distances(c, s, a.p.mcnt);
    ReleaseClosed(c, s, a.sec, a.nsec, a.p.mcnt);
    AcquireInv(c, Release(c, s, a.sec, a.nsec), a.p);
  }

  /** Every write of a step, to a header, a counter or the data, goes to a slot
      the thread holds: the current one, the next one, or the one it has just
      waited for. All other slots keep everything. */
  lemma StepWritesHeldSlots(c: Config, s: State, a: Arrival, i: nat)
    requires ValidConfig(c) && Inv(c, s) && Nominal(c, a)
    requires i < c.nBlocks && i != s.blockI && i != NextSlot(c, s)
    requires Classify(c, s, a.p.mcnt).Closing? ==> i != (NextSlot(c, s) + 1) % c.nBlocks
    ensures Untouched(c, s, Step(c, s, a), i)
  {
    Distances(c, s, a.p.mcnt);
    match Classify(c, s, a.p.mcnt)
    case Current =>
    case Closing => ClosingWritesHeldSlots(c, s, a, i);
    case LatePacket =>
    case OutOfSequence =>
      var t := Bumped(s);
      if t.outOfSeq > MaxOutOfSeq(c) {
        RestartWritesHeldSlots(c, t, a.p, i);
      }
  }

  /** A reset goes to the first block, counted from the packet's own, that has
      the slot the thread already holds. */
  lemma ResetMinimal(c: Config, s: State, p: Packet, other: nat)
    requires ValidConfig(c) && Inv(c, s) && p.mcnt < TWO56
    ensures var start := Reset(c, s, p).mcntStart;
            && start % c.nm == 0 && BlockStart(c, p.mcnt) <= start && BlockFor(c, start) == s.blockI
            && (other % c.nm == 0 && BlockStart(c, p.mcnt) <= other && BlockFor(c, other) == s.blockI ==>
                  start <= other)
  {
    var k, d := BlockNo(c, p.mcnt), Skip(c, s, p.mcnt);
    ResetStart(c, s, p.mcnt);
    DivModSplit(p.mcnt, c.nm);
    MulMono(k, k + d, c.nm);
    if other % c.nm == 0 && BlockStart(c, p.mcnt) <= other && BlockFor(c, other) == s.blockI {
      DivModSplit(other, c.nm);
      LeastWithSlot(k, d, BlockNo(c, other), c.nBlocks, c.nm);
    }
  }

  lemma LeastWithSlot(k: nat, d: nat, q: nat, n: nat, nm: nat)
    requires n > 0 && nm > 0
    requires d < n && Slot(q, n) == Slot(k + d, n)
    requires k * nm <= q * nm
    ensures (k + d) * nm <= q * nm
  {
    if q < k {
      assert (q + 1) * nm == q * nm + nm;
      MulMono(q + 1, k, nm);
    } else if q < k + d {
      SlotDistinct(q, k + d, n);
    } else {
      MulMono(k + d, q, nm);
    }
  }

  /** The new start is meant to be at or above the packet's mcnt. It is, unless
      the packet's block already has the held slot and the packet is not the
      first of its block: then rounding down ends below the packet. */
  lemma ResetReachesPacket(c: Config, s: State, p: Packet)
    requires ValidConfig(c) && Inv(c, s) && p.mcnt < TWO56
    ensures p.mcnt <= Reset(c, s, p).mcntStart <==> BlockFor(c, p.mcnt) != s.blockI || p.mcnt % c.nm == 0
  {
    ResetStart(c, s, p.mcnt);
    DivModSplit(p.mcnt, c.nm);
    RowsAhead(BlockNo(c, p.mcnt), Skip(c, s, p.mcnt), p.mcnt % c.nm, c.nm);
  }

  /** The same packet `n` times. */
  function Copies(a: Arrival, n: nat): (run: seq<Arrival>)
    ensures |run| == n
    ensures forall i :: 0 <= i < n ==> run[i] == a
  {
    seq(n, i requires 0 <= i < n => a)
  }

  lemma {:induction false} CopiesOutOfSequence(c: Config, s: State, a: Arrival, n: nat)
    requires ValidConfig(c) && Shaped(c, s) && Nominal(c, a)
    requires Classify(c, s, a.p.mcnt).OutOfSequence? && s.outOfSeq + n <= MaxOutOfSeq(c)
    ensures Run(c, s, Copies(a, n)) == s.(outOfSeq := s.outOfSeq + n)
  {
    if n > 0 {
      CopiesOutOfSequence(c, s, a, n - 1);
      assert Copies(a, n)[..n - 1] == Copies(a, n - 1);
    }
  }

  lemma SecondOfHeldBlock(c: Config, s: State, a: Arrival)
    requires ValidConfig(c) && Inv(c, s) && Nominal(c, a) && Resets(c, s, a.p.mcnt)
    requires BlockFor(c, a.p.mcnt) == s.blockI && a.p.mcnt % c.nm == 1
    ensures Step(c, s, a).mcntStart == a.p.mcnt - 1
  {
    hide Classify, Shaped, BlockFor;
  }

  /** The second mcnt of the first block that has slot 0 again. */
  function SecondMcnt(c: Config): (m: nat)
    requires ValidConfig(c)
    ensures 2 * c.nm < m < TWO56 && m % c.nm == 1 && BlockFor(c, m) == 0
  {
    RingSpan(c);
    MulMono(2, c.nBlocks, c.nm);
    DivModUnique(c.nBlocks, 1, c.nm);
    SlotWrap(0, c.nBlocks);
    SlotSmall(0, c.nBlocks);
    c.nBlocks * c.nm + 1
  }

  /** It happens: a stream that starts at such an mcnt makes the thread reset, from
      start-up, to the mcnt before it. */
  lemma ResetFallsShort(c: Config, blank: State, a: Arrival)
    requires ValidConfig(c) && IsBlank(c, blank) && Nominal(c, a) && a.p.mcnt == SecondMcnt(c)
    ensures var s := Run(c, Start(c, blank), Copies(a, MaxOutOfSeq(c)));
            Resets(c, s, a.p.mcnt) && Step(c, s, a).mcntStart == a.p.mcnt - 1
  {
    var t := Start(c, blank);
    hide Start, Shaped, SecondMcnt, BlockFor, Step, Run;
    StartZero(c, blank);
    Distances(c, t, a.p.mcnt);
    CopiesOutOfSequence(c, t, a, MaxOutOfSeq(c));
    SecondOfHeldBlock(c, t.(outOfSeq := MaxOutOfSeq(c)), a);
  }

  lemma StartZero(c: Config, blank: State)
    requires ValidConfig(c) && IsBlank(c, blank)
    ensures var t := Start(c, blank);
            && t.mcntStart == t.blockI == t.outOfSeq == 0
            && Inv(c, t) && Shaped(c, t) && Inv(c, t.(outOfSeq := MaxOutOfSeq(c)))
  {
    StartInv(c, blank);
  }

  lemma RowsAhead(k: nat, d: nat, r: nat, nm: nat)
    requires r < nm
    ensures k * nm + r <= (k + d) * nm <==> d >= 1 || r == 0
  {
    if d >= 1 {
      assert (k + 1) * nm == k * nm + nm;
      MulMono(k + 1, k + d, nm);
    }
  }

  /** The return value is meant to be the mcnt of the block the packet closed,
      and -1 for packets that close none. A packet from a bad source that closes
      a block returns -1 as well: the value tells of the closed block if and only
      if the source is valid. */
  lemma ReturnTellsOfFill(c: Config, s: State, a: Arrival)
    requires ValidConfig(c) && Inv(c, s) && Nominal(c, a)
    ensures var t := Step(c, s, a);
            && |t.released| == |s.released| + (if Classify(c, s, a.p.mcnt).Closing? then 1 else 0)
            && (|t.released| == |s.released| ==> Returned(c, s, a.p) == TWO64 - 1)
            && (|t.released| > |s.released| ==>
                  (Returned(c, s, a.p) == t.released[|s.released|].header.mcnt <==> a.p.sid < c.nSources))
  {
    RingSpan(c);
    assert U64(-1) == TWO64 - 1;
  }

  /** It happens: a packet from a bad source, alone after start-up, fills a block and says
      that it fills none. */
  lemma FillUntold(c: Config, blank: State, payload: seq<Word>)
    requires ValidConfig(c) && IsBlank(c, blank) && |payload| == PayloadWords(c.layout)
    ensures var s, a := Start(c, blank), Arrival(Packet(3 * (c.nm / 2), 0, 0, c.nSources, payload), 0, 0);
            && Nominal(c, a)
            && |Step(c, s, a).released| == 1 && Returned(c, s, a.p) == TWO64 - 1
  {
    var s, a := Start(c, blank), Arrival(Packet(3 * (c.nm / 2), 0, 0, c.nSources, payload), 0, 0);
    StartInv(c, blank);
    Distances(c, s, a.p.mcnt);
    ReturnTellsOfFill(c, s, a);
  }
}
