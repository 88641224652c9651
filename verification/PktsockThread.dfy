/** The assembler as the source has it: one object whose fields, block headers,
    counters and data area are updated in place, packet by packet. */
module PktsockThread {
  import opened Arith
  import opened Placement
  import opened Assembler

  // ---- copying one packet into a block ------------------------------------------

  /** What a word of the block holds once the first `rows` rows of a packet have
      been copied. */
  function PartWord(l: Layout, nm: nat, nSources: nat, was: Word, m: nat, key: nat, payload: seq<Word>, rows: nat,
                    w: nat): Word
    requires WholeWords(l) && nm > 0
    requires |payload| == PayloadWords(l)
  {
    if Covers(l, nm, nSources, m, key, w) && Owner(l, nm, w).j < rows * RowWords(l) then
      PlacementSurjective(l, nm, nSources, w);
      payload[Owner(l, nm, w).j]
    else was
  }

  /** Row `k` of a packet goes to the words that own it, in order, and to no others. */
  lemma RowCovers(l: Layout, nm: nat, nSources: nat, m: nat, key: nat, k: nat, w: nat)
    requires WholeWords(l) && nm > 0
    requires IsRow(l, nm, nSources, Row(m, key, k))
    ensures var u, row := RowWords(l), RowAddr(l, nm, Row(m, key, k));
            && row * u >= 0 && row * u + u <= UsedWords(l, nm, nSources)
            && (row * u <= w < row * u + u <==>
                  Covers(l, nm, nSources, m, key, w) && k * u <= Owner(l, nm, w).j < k * u + u)
            && (row * u <= w < row * u + u ==> Owner(l, nm, w).j == k * u + (w - row * u))
  {
    var u, r := RowWords(l), Row(m, key, k);
    var row := RowAddr(l, nm, r);
    RowAddrInBlock(l, nm, nSources, r);
    RowInside(row, RowsPerBlock(l, nm, nSources), u);
    if row * u <= w < row * u + u {
      DivIs(w, row, u);
    } else if Covers(l, nm, nSources, m, key, w) && k * u <= Owner(l, nm, w).j < k * u + u {
      SameRow(l, nm, nSources, r, w);
      DivModSplit(w, u);
    }
  }

  /** Copying one more row. */
  lemma PartWordStep(l: Layout, nm: nat, nSources: nat, was: Word, m: nat, key: nat, payload: seq<Word>, k: nat, w: nat)
    requires WholeWords(l) && nm > 0
    requires |payload| == PayloadWords(l)
    requires IsRow(l, nm, nSources, Row(m, key, k))
    ensures var u, dest := RowWords(l), RowAddr(l, nm, Row(m, key, k)) * RowWords(l);
            && 0 <= k * u && k * u + u <= |payload|
            && PartWord(l, nm, nSources, was, m, key, payload, k + 1, w)
            == if dest <= w < dest + u then payload[k * u + (w - dest)]
               else PartWord(l, nm, nSources, was, m, key, payload, k, w)
  {
    var u := RowWords(l);
    RowInside(k, RowsPerPacket(l), u);
    assert (k + 1) * u == k * u + u;
    RowCovers(l, nm, nSources, m, key, k, w);
    hide Covers, Owner, RowAddr, IsRow;
  }

  lemma RowInside(row: nat, rows: nat, u: nat)
    requires row < rows
    ensures 0 <= row * u && row * u + u <= rows * u
  {
    MulMono(row + 1, rows, u);
    assert (row + 1) * u == row * u + u;
  }

  lemma SameRow(l: Layout, nm: nat, nSources: nat, r: Row, w: nat)
    requires WholeWords(l) && nm > 0
    requires Covers(l, nm, nSources, r.m, r.key, w)
    requires r.k * RowWords(l) <= Owner(l, nm, w).j < r.k * RowWords(l) + RowWords(l)
    ensures w / RowWords(l) == RowAddr(l, nm, r)
  {
    hide WholeWords, RowsPerBlock, RowAddr, RowsPerPacket;
    var u := RowWords(l);
    var o := RowOwner(l, nm, w / u);
    RowBound(w, RowsPerBlock(l, nm, nSources), u);
    RowOwnerInPacket(l, nm, nSources, w / u);
    hide RowOwner, RowWords;
    WordInRow(o.k, w % u, o.k + 1, u);
    DivIs(o.k * u + w % u, r.k, u);
  }

  /** The 64-bit word offset computed for an Arecibo packet. */
  lemma AreciboOffset(l: Layout, nm: nat, sid: nat, m: nat)
    requires l.Arecibo? && WholeWords(l)
    ensures (sid * nm + m) * l.chans * 4 / 8 == RowAddr(l, nm, Row(m, sid, 0)) * RowWords(l)
  {
    HalfRow(sid * nm + m, l.chans);
  }

  lemma HalfRow(row: nat, chans: nat)
    requires chans % 2 == 0
    ensures row * chans * 4 / 8 == row * (chans / 2)
  {
    var h := chans / 2;
    assert chans == 2 * h;
    assert row * chans == 2 * (row * h);
  }

  /** Time `m * spectra + i` of a packet, within its block of `f` times. */
  lemma TimeInBlock(mcnt: nat, nm: nat, spectra: nat, i: nat, f: nat)
    requires nm > 0 && i < spectra <= 128 && mcnt < TWO56 && f == nm * spectra
    ensures f > 0 && U64(mcnt * spectra + i) % f == (mcnt % nm) * spectra + i
  {
    DivModSplit(mcnt, nm);
    CellBound(0, 0, nm, spectra);
    CellBound(mcnt % nm, i, nm, spectra);
    NoWrap(mcnt, spectra, i);
    assert mcnt * spectra + i == (mcnt / nm) * f + ((mcnt % nm) * spectra + i) by {
      assert mcnt * spectra == ((mcnt / nm) * nm + mcnt % nm) * spectra;
      assert ((mcnt / nm) * nm) * spectra == (mcnt / nm) * f;
    }
    DivModUnique(mcnt / nm, (mcnt % nm) * spectra + i, f);
  }

  /** Where sub-spectrum `b` of spectrum `i` of a DiBAS packet goes, in 64-bit words from
      the start of the block. */
  function DibasDest(l: Layout, nm: nat, mcnt: nat, i: nat, b: nat): int
    requires l.Dibas? && nm * l.spectra > 0
  {
    var f := nm * l.spectra;
    (b * f + U64(mcnt * l.spectra + i) % f) * (4 * l.subChans) / 8
  }

  /** It is the start of the row it should be. */
  lemma DibasOffset(l: Layout, nm: nat, mcnt: nat, i: nat, b: nat, k: nat)
    requires l.Dibas? && WholeWords(l) && nm > 0
    requires i < l.spectra && b < l.subs && mcnt < TWO56 && k == i * l.subs + b
    ensures nm * l.spectra > 0
    ensures 0 <= mcnt % nm < nm && k < RowsPerPacket(l)
    ensures DibasDest(l, nm, mcnt, i, b) == RowAddr(l, nm, Row(mcnt % nm, 0, k)) * RowWords(l)
  {
    var f := nm * l.spectra;
    DivModSplit(mcnt, nm);
    TimeInBlock(mcnt, nm, l.spectra, i, f);
    CellBound(i, b, l.spectra, l.subs);
    DivModUnique(i, b, l.subs);
    hide U64;
    QuarterRow(b * f + ((mcnt % nm) * l.spectra + i), l.subChans);
  }

  lemma NoWrap(mcnt: nat, spectra: nat, i: nat)
    requires mcnt < TWO56 && spectra <= 128 && i < spectra
    ensures U64(mcnt * spectra + i) == mcnt * spectra + i
  {
    MulMono(spectra, 128, mcnt);
    assert mcnt * spectra == spectra * mcnt;
  }

  lemma QuarterRow(row: nat, subChans: nat)
    requires subChans % 2 == 0
    ensures row * (4 * subChans) / 8 == row * (subChans / 2)
  {
    var h := subChans / 2;
    assert subChans == 2 * h;
    assert row * (4 * subChans) == 8 * (row * h);
  }

  lemma FastOffset(l: Layout, nm: nat, m: nat)
    requires l.Fast? && WholeWords(l)
    ensures m * l.samples / 8 == RowAddr(l, nm, Row(m, 0, 0)) * RowWords(l)
  {
    var h := l.samples / 8;
    assert l.samples == 8 * h;
    assert m * l.samples == 8 * (m * h);
  }

  // ---- the thread ----------------------------------------------------------------

  class Assembling {
    const c: Config
    var pchan: nat
    var nchan: nat
    var mcntStart: nat
    var mcntLogLate: nat
    var outOfSeq: nat
    var blockI: nat
    const counters: array<int>
    const headers: array<Header>
    const blocks: array2<Word>
    var lastFilled: int
    var orderWarnings: nat
    var indexWarnings: nat
    ghost var released: seq<Fill>

    ghost predicate Valid()
      reads this, counters, headers, blocks
    {
      && ValidConfig(c) && Roomy(c)
      && counters.Length == headers.Length == blocks.Length0 == c.nBlocks
      && blocks.Length1 == c.blockWords
      && Shaped(c, Value())
    }

    /** The data of block `i`. */
    ghost function Block(i: nat): (b: seq<Word>)
      requires i < blocks.Length0
      reads blocks
      ensures |b| == blocks.Length1
    {
      seq(blocks.Length1, w requires 0 <= w < blocks.Length1 reads blocks => blocks[i, w])
    }

    ghost function Blocks(): (bs: seq<seq<Word>>)
      reads blocks
      ensures |bs| == blocks.Length0
    {
      seq(blocks.Length0, i requires 0 <= i < blocks.Length0 reads blocks => Block(i))
    }

    /** The state of the object as a value. */
    ghost function Value(): State
      reads this, counters, headers, blocks
    {
      State.State(pchan, nchan, mcntStart, mcntLogLate, outOfSeq, blockI, counters[..], lastFilled, headers[..],
                  Blocks(),
                  released, orderWarnings, indexWarnings)
    }

    /** initialize_block_info, and the two calls of initialize_block at start-up. */
    constructor (c: Config, counters: array<int>, headers: array<Header>, blocks: array2<Word>)
      requires ValidConfig(c) && Roomy(c)
      requires counters.Length == headers.Length == blocks.Length0 == c.nBlocks && blocks.Length1 == c.blockWords
      requires forall i :: 0 <= i < c.nBlocks ==> |headers[i].missed| == c.nBors
      modifies counters, headers
      ensures this.c == c && this.counters == counters && this.headers == headers && this.blocks == blocks
      ensures Valid()
      ensures Value() == Start(c, Blank(c, old(headers[..]), Blocks()))
    {
      this.c := c;
      this.counters, this.headers, this.blocks := counters, headers, blocks;
      pchan, nchan, mcntStart, mcntLogLate, outOfSeq, blockI := 0, 0, 0, c.nm, 0, 0;
      lastFilled, orderWarnings, indexWarnings := -1, 0, 0;
      released := [];
      new;
      for i := 0 to c.nBlocks
        invariant forall k :: 0 <= k < i ==> counters[k] == 0
        invariant headers[..] == old(headers[..])
        invariant this.released == [] && this.pchan == this.nchan == this.mcntStart == this.outOfSeq == this.blockI == 0
        invariant this.mcntLogLate == c.nm && this.lastFilled == -1 && this.orderWarnings == this.indexWarnings == 0
      {
        counters[i] := 0;
      }
      assert counters[..] == seq(c.nBlocks, _ => 0);
      assert Value() == Blank(c, old(headers[..]), Blocks());
      InitializeBlock(0, 0, 0, 0);
      InitializeBlock(c.nm, 0, 0, 0);
    }

    method InitializeBlock(mcnt: nat, pchan: nat, nchan: nat, sid: nat)
      requires Valid()
      modifies headers
      ensures Valid()
      ensures Value() == InitBlock(c, old(Value()), mcnt, pchan, nchan, sid)
    {
      var i := BlockFor(c, mcnt);
      ghost var was := headers[..];
      for b := 0 to c.nBors
        invariant |headers[i].missed| == c.nBors
        invariant forall k :: 0 <= k < b ==> headers[i].missed[k] == c.nm
        invariant headers[i] == was[i].(missed := headers[i].missed)
        invariant forall k :: 0 <= k < c.nBlocks && k != i ==> headers[k] == was[k]
      {
        headers[i] := headers[i].(missed := headers[i].missed[b := c.nm]);
      }
      DivModSplit(mcnt, c.nm);
      headers[i] := headers[i].(mcnt := mcnt - mcnt % c.nm);
      headers[i] := headers[i].(chanId := pchan, numChan := nchan);
      headers[i] := headers[i].(sid := sid);
      assert headers[i].missed == seq(c.nBors, _ => c.nm);
      assert headers[..] == InitBlock(c, old(Value()), mcnt, pchan, nchan, sid).headers;
    }

    /** The part of process_packet that gives the current block away. */
    method CloseBlock(sec: nat, nsec: nat) returns (mcnt: nat)
      requires Valid()
      modifies this, headers
      ensures Valid()
      ensures Value() == Release(c, old(Value()), sec, nsec)
      ensures mcnt == old(mcntStart)
    {
      headers[blockI] := headers[blockI].(sec := sec);
      headers[blockI] := headers[blockI].(nsec := nsec);
      assert headers[..] == old(headers[..])[blockI := old(headers[blockI]).(sec := sec, nsec := nsec)];
      mcnt := SetBlockFilled();
      mcntStart := U64(mcntStart + c.nm);
      blockI := (blockI + 1) % c.nBlocks;
      pchan := 0;
      nchan := 0;
    }

    /** set_block_filled without the status display. */
    method SetBlockFilled() returns (mcnt: nat)
      requires Valid()
      modifies this`lastFilled, this`orderWarnings, this`indexWarnings, this`released
      ensures Valid()
      ensures mcnt == mcntStart
      ensures var slot := BlockFor(c, mcntStart);
              && lastFilled == (old(lastFilled) + 1) % c.nBlocks
              && orderWarnings == old(orderWarnings) + (if lastFilled != slot then 1 else 0)
              && indexWarnings == old(indexWarnings) + (if slot != blockI then 1 else 0)
              && released == old(released) + [Fill(slot, headers[slot], Block(slot))]
    {
      var slot := BlockFor(c, mcntStart);
      lastFilled := (lastFilled + 1) % c.nBlocks;
      if lastFilled != slot {
        orderWarnings := orderWarnings + 1;
      }
      if slot != blockI {
        indexWarnings := indexWarnings + 1;
      }
      released := released + [Fill(slot, headers[slot], Block(slot))];
      mcnt := mcntStart;
    }

    /** One piece of a payload, copied word by word into block `i`. */
    method CopyWords(i: nat, dest: nat, payload: seq<Word>, src: nat, n: nat)
      requires i < blocks.Length0 && dest + n <= blocks.Length1 && src + n <= |payload|
      modifies blocks
      ensures forall a, w :: 0 <= a < blocks.Length0 && 0 <= w < blocks.Length1 ==>
                blocks[a, w] == if a == i && dest <= w < dest + n then payload[src + (w - dest)] else old(blocks[a, w])
    {
      for k := 0 to n
        invariant forall a, w :: 0 <= a < blocks.Length0 && 0 <= w < blocks.Length1 ==>
                    blocks[a, w] == if a == i && dest <= w < dest + k then payload[src + (w - dest)]
                                    else old(blocks[a, w])
      {
        blocks[i, dest + k] := payload[src + k];
      }
    }

    /** Against `was`, the first `rows` rows of packet (m, key) have been copied into block `i`. */
    ghost predicate Copied(was: seq<seq<Word>>, i: nat, m: nat, key: nat, payload: seq<Word>, rows: nat)
      requires WholeWords(c.layout) && c.nm > 0 && |payload| == PayloadWords(c.layout)
      requires |was| == blocks.Length0 && forall a :: 0 <= a < |was| ==> |was[a]| == blocks.Length1
      reads this, blocks
    {
      forall a: nat, w: nat :: a < blocks.Length0 && w < blocks.Length1 ==>
        blocks[a, w] == if a == i then PartWord(c.layout, c.nm, c.nSources, was[a][w], m, key, payload, rows, w)
                        else was[a][w]
    }

    /** Copies row `k` of a packet to the place computed for it. */
    method CopyRow(i: nat, dest: nat, payload: seq<Word>, src: nat, m: nat, key: nat, k: nat, ghost was: seq<seq<Word>>)
      requires Valid() && i < c.nBlocks
      requires |payload| == PayloadWords(c.layout)
      requires IsRow(c.layout, c.nm, c.nSources, Row(m, key, k))
      requires dest == RowAddr(c.layout, c.nm, Row(m, key, k)) * RowWords(c.layout)
      requires src == k * RowWords(c.layout)
      requires |was| == blocks.Length0 && forall a :: 0 <= a < |was| ==> |was[a]| == blocks.Length1
      requires Copied(was, i, m, key, payload, k)
      modifies blocks
      ensures Valid() && Copied(was, i, m, key, payload, k + 1)
    {
      hide PartWord, RowAddr;
      var u := RowWords(c.layout);
      RowPlace(m, key, k, |payload|);
      CopyWords(i, dest, payload, src, u);
      forall a: nat, w: nat | a < blocks.Length0 && w < blocks.Length1
        ensures blocks[a, w] ==
                if a == i then PartWord(c.layout, c.nm, c.nSources, was[a][w], m, key, payload, k + 1, w)
                else was[a][w]
      {
        PartWordStep(c.layout, c.nm, c.nSources, was[a][w], m, key, payload, k, w);
      }
    }

    lemma RowPlace(m: nat, key: nat, k: nat, n: nat)
      requires ValidConfig(c) && Roomy(c)
      requires IsRow(c.layout, c.nm, c.nSources, Row(m, key, k)) && n == PayloadWords(c.layout)
      ensures var u, dest := RowWords(c.layout), RowAddr(c.layout, c.nm, Row(m, key, k)) * RowWords(c.layout);
              0 <= k * u && k * u + u <= n && 0 <= dest && dest + u <= c.blockWords
    {
      RowCovers(c.layout, c.nm, c.nSources, m, key, k, 0);
      RowInside(k, RowsPerPacket(c.layout), RowWords(c.layout));
    }

    /** One sub-spectrum: row `k` of the packet. */
    method StoreSubSpectrum(i: nat, p: Packet, s: nat, b: nat, k: nat, src: nat, ghost was: seq<seq<Word>>)
      requires Valid() && i < c.nBlocks && c.layout.Dibas? && s < c.layout.spectra && b < c.layout.subs
      requires p.mcnt < TWO56 && |p.payload| == PayloadWords(c.layout)
      requires |was| == blocks.Length0 && forall a :: 0 <= a < |was| ==> |was[a]| == blocks.Length1
      requires k == s * c.layout.subs + b && src == k * RowWords(c.layout)
      requires 0 <= p.mcnt % c.nm < c.nm && Copied(was, i, p.mcnt % c.nm, 0, p.payload, k)
      modifies blocks
      ensures Valid() && Copied(was, i, p.mcnt % c.nm, 0, p.payload, k + 1)
    {
      hide Shaped, Copied, RowAddr, DibasDest, RowWords;
      DibasOffset(c.layout, c.nm, p.mcnt, s, b, k);
      CopyRow(i, DibasDest(c.layout, c.nm, p.mcnt, s, b), p.payload, src, p.mcnt % c.nm, 0, k, was);
    }

    /** One spectrum of a DiBAS packet, cut into sub-spectra; rows `first` and on of the packet. */
    method StoreSpectrum(i: nat, p: Packet, s: nat, first: nat, ghost was: seq<seq<Word>>)
      requires Valid() && i < c.nBlocks && c.layout.Dibas? && s < c.layout.spectra
      requires p.mcnt < TWO56 && |p.payload| == PayloadWords(c.layout)
      requires |was| == blocks.Length0 && forall a :: 0 <= a < |was| ==> |was[a]| == blocks.Length1
      requires first == s * c.layout.subs
      requires 0 <= p.mcnt % c.nm < c.nm && Copied(was, i, p.mcnt % c.nm, 0, p.payload, first)
      modifies blocks
      ensures Valid() && Copied(was, i, p.mcnt % c.nm, 0, p.payload, first + c.layout.subs)
    {
      hide Shaped, Copied, RowAddr;
      var src := first * RowWords(c.layout);
      for b := 0 to c.layout.subs
        invariant Valid() && src == (first + b) * RowWords(c.layout)
        invariant Copied(was, i, p.mcnt % c.nm, 0, p.payload, first + b)
      {
        StoreSubSpectrum(i, p, s, b, first + b, src, was);
        src := src + 4 * c.layout.subChans / 8;
        assert (first + b + 1) * RowWords(c.layout) == (first + b) * RowWords(c.layout) + RowWords(c.layout);
      }
    }

    /** Unpacks a payload into block `i`, with the offsets and loops of the layout. */
    method StorePayload(i: nat, p: Packet)
      requires Valid() && i < c.nBlocks
      requires p.mcnt < TWO56 && |p.payload| == PayloadWords(c.layout) && p.sid < c.nSources
      modifies blocks
      ensures Valid()
      ensures Blocks() == old(Blocks())[i := Placed(c.layout, c.nm, c.nSources, old(Block(i)), p.mcnt % c.nm,
                                                    Key(c.layout, p.sid), p.payload)]
    {
      hide Shaped, Copied, RowAddr;
      ghost var was := Blocks();
      DivModSplit(p.mcnt, c.nm);
      NoneCopied(i, p.mcnt % c.nm, Key(c.layout, p.sid), p.payload);
      match c.layout {
        case Arecibo(chans) =>
          AreciboOffset(c.layout, c.nm, p.sid, p.mcnt % c.nm);
          CopyRow(i, (p.sid * c.nm + p.mcnt % c.nm) * chans * 4 / 8, p.payload, 0, p.mcnt % c.nm, p.sid, 0, was);
        case Dibas(_, spectra, subs) =>
          var first: nat := 0;
          for s := 0 to spectra
            invariant Valid() && first == s * subs
            invariant Copied(was, i, p.mcnt % c.nm, 0, p.payload, first)
          {
            StoreSpectrum(i, p, s, first, was);
            first := first + subs;
            assert (s + 1) * subs == s * subs + subs;
          }
        case Fast(samples) =>
          FastOffset(c.layout, c.nm, p.mcnt % c.nm);
          CopyRow(i, p.mcnt % c.nm * samples / 8, p.payload, 0, p.mcnt % c.nm, 0, 0, was);
      }
      AllCopied(was, i, p.mcnt % c.nm, Key(c.layout, p.sid), p.payload);
    }

    lemma NoneCopied(i: nat, m: nat, key: nat, payload: seq<Word>)
      requires Valid() && |payload| == PayloadWords(c.layout)
      ensures Copied(Blocks(), i, m, key, payload, 0)
    {
    }

    lemma AllCopied(was: seq<seq<Word>>, i: nat, m: nat, key: nat, payload: seq<Word>)
      requires Valid() && i < c.nBlocks && m < c.nm
      requires |payload| == PayloadWords(c.layout)
      requires |was| == blocks.Length0 && forall a :: 0 <= a < |was| ==> |was[a]| == blocks.Length1
      requires Copied(was, i, m, key, payload, RowsPerPacket(c.layout))
      ensures Blocks() == was[i := Placed(c.layout, c.nm, c.nSources, was[i], m, key, payload)]
    {
      forall a: nat, w: nat | a < blocks.Length0 && w < blocks.Length1
        ensures blocks[a, w] ==
                if a == i then PlacedWord(c.layout, c.nm, c.nSources, was[a][w], m, key, payload, w)
                else was[a][w]
      {
        if a == i && Covers(c.layout, c.nm, c.nSources, m, key, w) {
          PlacementSurjective(c.layout, c.nm, c.nSources, w);
        }
      }
      forall a | 0 <= a < blocks.Length0
        ensures Blocks()[a] == if a == i then Placed(c.layout, c.nm, c.nSources, was[i], m, key, payload) else was[a]
      {
      }
    }

    /** calc_block_indexes: refuses bad sources, remembers the first channel numbers. */
    method CalcBlockIndexes(p: Packet) returns (bad: bool)
      requires Valid()
      modifies this`pchan, this`nchan
      ensures bad == (p.sid >= c.nSources)
      ensures if bad || old(nchan) != 0 then pchan == old(pchan) && nchan == old(nchan)
              else pchan == p.pchan && nchan == p.nchan
    {
      if p.sid >= c.nSources {
        return true;
      }
      if nchan == 0 {
        nchan := p.nchan;
        pchan := p.pchan;
      }
      return false;
    }

    /** The part of process_packet for a packet of one of the two held blocks. */
    method StorePacket(p: Packet) returns (bad: bool)
      requires Valid() && p.mcnt < TWO56 && |p.payload| == PayloadWords(c.layout)
      modifies this, counters, headers, blocks
      ensures Valid()
      ensures Value() == Store(c, old(Value()), p)
      ensures bad == (p.sid >= c.nSources)
    {
      var i := BlockFor(c, p.mcnt);
      outOfSeq := 0;
      counters[i] := counters[i] + 1;
      assert counters[..] == old(counters[..])[i := old(counters[i]) + 1];
      bad := CalcBlockIndexes(p);
      if bad {
        return;
      }
      var k := Counter(c, p.sid);
      headers[i] := headers[i].(missed := headers[i].missed[k := U64(headers[i].missed[k] as int - 1)]);
      StorePayload(i, p);
    }

    /** The two held blocks are recycled for mcnts from `start` on. */
    method Restart(start: nat, p: Packet)
      requires Valid()
      modifies this, counters, headers
      ensures Valid()
      ensures Value() == Restarted(c, old(Value()), start, p)
    {
      hide InitBlock, BlockFor, U64;
      mcntStart := start;
      mcntLogLate := U64(mcntStart + c.nm);
      blockI := BlockFor(c, mcntStart);
      pchan := 0;
      nchan := 0;
      InitializeBlock(mcntStart, p.pchan, p.nchan, p.sid);
      InitializeBlock(U64(mcntStart + c.nm), p.pchan, p.nchan, p.sid);
      counters[blockI] := 0;
      counters[(blockI + 1) % c.nBlocks] := 0;
    }

    /** The part of process_packet that moves to another mcnt. */
    method ResetTo(p: Packet)
      requires Valid() && p.mcnt < TWO56
      modifies this, counters, headers
      ensures Valid()
      ensures Value() == Reset(c, old(Value()), p)
    {
      hide Restarted, BlockFor;
      var mcnt, i := p.mcnt, BlockFor(c, p.mcnt);
      if blockI > i {
        mcnt := U64(mcnt + c.nm * (blockI - i));
      } else if blockI < i {
        mcnt := U64(mcnt + c.nm * (blockI + c.nBlocks - i));
      }
      DivModSplit(mcnt, c.nm);
      Restart(mcnt - mcnt % c.nm, p);
    }

    /** The current block is given away and the slot behind the next one is taken.
        The wait for that slot is the one place where other threads matter. */
    method CloseAndTake(a: Arrival) returns (mcnt: nat)
      requires Valid()
      modifies this, counters, headers
      ensures Valid()
      ensures Value() == Advanced(c, old(Value()), a)
      ensures mcnt == old(mcntStart)
    {
      hide Release, InitBlock;
      mcnt := CloseBlock(a.sec, a.nsec);
      var newBlockI := (blockI + 1) % c.nBlocks;
      InitializeBlock(U64(a.p.mcnt + c.nm), a.p.pchan, a.p.nchan, a.p.sid);
      counters[newBlockI] := 0;
    }

    /** process_packet. */
    method ProcessPacket(a: Arrival) returns (ret: nat)
      requires Valid() && Nominal(c, a)
      modifies this, counters, headers, blocks
      ensures Valid()
      ensures Value() == Step(c, old(Value()), a)
      ensures ret == Returned(c, old(Value()), a.p)
    {
      hide Advanced, Store, Reset;
      ret := U64(-1);
      var p := a.p;
      var dist := SignedDistance(p.mcnt, mcntStart);
      if 0 <= dist && dist < 2 * c.nm {
        if dist >= 3 * (c.nm / 2) {
          ret := CloseAndTake(a);
        }
        var bad := StorePacket(p);
        if bad {
          return U64(-1);
        }
      } else if dist < 0 && dist > -(LateThreshold(c) as int) {
        return;
      } else {
        outOfSeq := outOfSeq + 1;
        if outOfSeq > MaxOutOfSeq(c) {
          ResetTo(p);
        }
      }
    }
  }
}
