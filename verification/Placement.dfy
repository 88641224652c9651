/** Where a packet's payload words go inside a ring block, for the three
    instruments, and why that placement is a rearrangement: every used word of
    a block belongs to exactly one word of exactly one packet. */
module Placement {
  import opened Arith

  type Word = bv64

  /** How a packet is laid out, and so how a block is.
      - Arecibo: one time sample of all channels of one beam a packet.
      - Dibas: `spectra` time samples a packet, each cut into `subs` sub-spectra
        of `subChans` channels; every sub-spectrum has its own part of the block.
      - Fast: `samples` consecutive one-byte samples a packet. */
  datatype Layout =
    | Arecibo(chans: nat)
    | Dibas(subChans: nat, spectra: nat, subs: nat)
    | Fast(samples: nat)

  /** Rows are whole 64-bit words in every build of the program. */
  predicate WholeWords(l: Layout) {
    match l
    case Arecibo(chans) => chans > 0 && chans % 2 == 0
    case Dibas(subChans, spectra, subs) => subChans > 0 && subChans % 2 == 0 && 0 < spectra <= 128 && subs > 0
    case Fast(samples) => samples > 0 && samples % 8 == 0
  }

  /** Words in the shortest run of payload that is copied in one piece. */
  function RowWords(l: Layout): (r: nat)
    requires WholeWords(l)
    ensures r > 0
  {
    match l
    case Arecibo(chans) => chans / 2
    case Dibas(subChans, _, _) => subChans / 2
    case Fast(samples) => samples / 8
  }

  /** Runs in one packet. */
  function RowsPerPacket(l: Layout): nat {
    match l
    case Arecibo(_) => 1
    case Dibas(_, spectra, subs) => spectra * subs
    case Fast(_) => 1
  }

  function PayloadWords(l: Layout): nat
    requires WholeWords(l)
  {
    RowsPerPacket(l) * RowWords(l)
  }

  /** Only the Arecibo placement looks at the source of the packet. */
  function Key(l: Layout, sid: nat): nat {
    if l.Arecibo? then sid else 0
  }

  function KeyCount(l: Layout, nSources: nat): nat {
    if l.Arecibo? then nSources else 1
  }

  /** Rows of a block that packets are written to. */
  function RowsPerBlock(l: Layout, nm: nat, nSources: nat): nat {
    match l
    case Arecibo(_) => nSources * nm
    case Dibas(_, spectra, subs) => subs * (nm * spectra)
    case Fast(_) => nm
  }

  function UsedWords(l: Layout, nm: nat, nSources: nat): nat
    requires WholeWords(l)
  {
    RowsPerBlock(l, nm, nSources) * RowWords(l)
  }

  /** One row of one packet: its position `m` in the block, its source key and
      the number of the row in the packet. */
  datatype Row = Row(m: nat, key: nat, k: nat)

  predicate IsRow(l: Layout, nm: nat, nSources: nat, r: Row) {
    r.m < nm && r.key < KeyCount(l, nSources) && r.k < RowsPerPacket(l)
  }

  /** The block row a packet row is copied to. */
  function RowAddr(l: Layout, nm: nat, r: Row): nat {
    match l
    case Arecibo(_) => r.key * nm + r.m
    case Dibas(_, spectra, subs) =>
      if subs == 0 then 0 else (r.k % subs) * (nm * spectra) + (r.m * spectra + r.k / subs)
    case Fast(_) => r.m
  }

  /** The packet row that is copied to a block row. */
  function RowOwner(l: Layout, nm: nat, row: nat): Row
    requires WholeWords(l) && nm > 0
  {
    match l
    case Arecibo(_) => Row(row % nm, row / nm, 0)
    case Dibas(_, spectra, subs) =>
      CellBound(0, 0, nm, spectra);
      var f := nm * spectra;
      DivModSplit(row, f);
      var t := row % f;
      DivModSplit(t, spectra);
      MulMono(0, t % spectra, subs);
      Row(t / spectra, 0, (t % spectra) * subs + row / f)
    case Fast(_) => Row(row, 0, 0)
  }

  lemma RowAddrInBlock(l: Layout, nm: nat, nSources: nat, r: Row)
    requires WholeWords(l) && nm > 0
    requires IsRow(l, nm, nSources, r)
    ensures RowAddr(l, nm, r) < RowsPerBlock(l, nm, nSources)
    ensures RowOwner(l, nm, RowAddr(l, nm, r)) == r
  {
    match l
    case Arecibo(_) =>
      CellBound(r.key, r.m, nSources, nm);
      DivModUnique(r.key, r.m, nm);
    case Dibas(_, spectra, subs) =>
      RowBound(r.k, spectra, subs);
      var i, b := r.k / subs, r.k % subs;
      DivModSplit(r.k, subs);
      var f := nm * spectra;
      CellBound(r.m, i, nm, spectra);
      CellBound(b, r.m * spectra + i, subs, f);
      DivModUnique(b, r.m * spectra + i, f);
      DivModUnique(r.m, i, spectra);
    case Fast(_) =>
  }

  lemma RowOwnerInPacket(l: Layout, nm: nat, nSources: nat, row: nat)
    requires WholeWords(l) && nm > 0
    requires row < RowsPerBlock(l, nm, nSources)
    ensures IsRow(l, nm, nSources, RowOwner(l, nm, row))
    ensures RowAddr(l, nm, RowOwner(l, nm, row)) == row
  {
    match l
    case Arecibo(_) =>
      RowBound(row, nSources, nm);
      DivModSplit(row, nm);
    case Dibas(_, spectra, subs) =>
      var f := nm * spectra;
      CellBound(0, 0, nm, spectra);
      RowBound(row, subs, f);
      DivModSplit(row, f);
      var t, b := row % f, row / f;
      RowBound(t, nm, spectra);
      DivModSplit(t, spectra);
      CellBound(t % spectra, b, spectra, subs);
      DivModUnique(t % spectra, b, subs);
    case Fast(_) =>
  }

  /** One word of one packet. */
  datatype Cell = Cell(m: nat, key: nat, j: nat)

  predicate IsCell(l: Layout, nm: nat, nSources: nat, c: Cell)
    requires WholeWords(l)
  {
    c.m < nm && c.key < KeyCount(l, nSources) && c.j < PayloadWords(l)
  }

  /** The word of the block that word `j` of packet `m` of a source is copied to. */
  function Addr(l: Layout, nm: nat, c: Cell): nat
    requires WholeWords(l)
  {
    RowAddr(l, nm, Row(c.m, c.key, c.j / RowWords(l))) * RowWords(l) + c.j % RowWords(l)
  }

  /** The packet word that is copied to word `w` of the block. */
  function Owner(l: Layout, nm: nat, w: nat): Cell
    requires WholeWords(l) && nm > 0
  {
    var r := RowOwner(l, nm, w / RowWords(l));
    Cell(r.m, r.key, r.k * RowWords(l) + w % RowWords(l))
  }

  lemma WordInRow(row: nat, col: nat, rows: nat, u: nat)
    requires row < rows && col < u
    ensures row * u + col < rows * u
    ensures (row * u + col) / u == row
    ensures (row * u + col) % u == col
  {
    CellBound(row, col, rows, u);
    DivModUnique(row, col, u);
  }

  lemma AddrSplits(l: Layout, nm: nat, nSources: nat, c: Cell)
    requires WholeWords(l) && nm > 0
    requires IsCell(l, nm, nSources, c)
    ensures Addr(l, nm, c) < UsedWords(l, nm, nSources)
    ensures Addr(l, nm, c) % RowWords(l) == c.j % RowWords(l)
    ensures RowOwner(l, nm, Addr(l, nm, c) / RowWords(l)) == Row(c.m, c.key, c.j / RowWords(l))
  {
    hide RowAddr, RowOwner, RowsPerBlock, RowsPerPacket;
    var u := RowWords(l);
    RowBound(c.j, RowsPerPacket(l), u);
    var r := Row(c.m, c.key, c.j / u);
    RowAddrInBlock(l, nm, nSources, r);
    WordInRow(RowAddr(l, nm, r), c.j % u, RowsPerBlock(l, nm, nSources), u);
  }

  /** Placement loses and overlaps nothing: every packet word of the block has a
      place inside the used area, and that place has no other owner. */
  lemma PlacementInjective(l: Layout, nm: nat, nSources: nat, c: Cell)
    requires WholeWords(l) && nm > 0
    requires IsCell(l, nm, nSources, c)
    ensures Addr(l, nm, c) < UsedWords(l, nm, nSources)
    ensures Owner(l, nm, Addr(l, nm, c)) == c
  {
    AddrSplits(l, nm, nSources, c);
    DivModSplit(c.j, RowWords(l));
  }

  /** Placement leaves no gap: every word of the used area is owned by a word of
      one of the expected packets. */
  lemma PlacementSurjective(l: Layout, nm: nat, nSources: nat, w: nat)
    requires WholeWords(l) && nm > 0
    requires w < UsedWords(l, nm, nSources)
    ensures IsCell(l, nm, nSources, Owner(l, nm, w))
    ensures Addr(l, nm, Owner(l, nm, w)) == w
  {
    var u := RowWords(l);
    RowBound(w, RowsPerBlock(l, nm, nSources), u);
    DivModSplit(w, u);
    var r := RowOwner(l, nm, w / u);
    RowOwnerInPacket(l, nm, nSources, w / u);
    WordInRow(r.k, w % u, RowsPerPacket(l), u);
  }

  /** Two different packets of a block never share a word. */
  lemma PacketsDisjoint(l: Layout, nm: nat, nSources: nat, c: Cell, d: Cell)
    requires WholeWords(l) && nm > 0
    requires IsCell(l, nm, nSources, c) && IsCell(l, nm, nSources, d)
    ensures Addr(l, nm, c) == Addr(l, nm, d) <==> c == d
  {
    PlacementInjective(l, nm, nSources, c);
    PlacementInjective(l, nm, nSources, d);
  }

  /** Whether word `w` of a block is written by packet `m` with source key `key`. */
  predicate Covers(l: Layout, nm: nat, nSources: nat, m: nat, key: nat, w: nat)
    requires WholeWords(l) && nm > 0
  {
    w < UsedWords(l, nm, nSources) && Owner(l, nm, w).m == m && Owner(l, nm, w).key == key
  }

  /** What one word of a block holds after a packet has been stored. */
  function PlacedWord(l: Layout, nm: nat, nSources: nat, was: Word, m: nat, key: nat, payload: seq<Word>, w: nat): Word
    requires WholeWords(l) && nm > 0
    requires |payload| == PayloadWords(l)
  {
    if Covers(l, nm, nSources, m, key, w) then
      PlacementSurjective(l, nm, nSources, w);
      payload[Owner(l, nm, w).j]
    else was
  }

  /** A block after a packet has been stored. */
  function Placed(l: Layout, nm: nat, nSources: nat, block: seq<Word>, m: nat, key: nat,
                  payload: seq<Word>): (b: seq<Word>)
    requires WholeWords(l) && nm > 0
    requires |payload| == PayloadWords(l)
    ensures |b| == |block|
  {
    seq(|block|, w requires 0 <= w < |block| => PlacedWord(l, nm, nSources, block[w], m, key, payload, w))
  }

  /** One packet as storing sees it: position in the block, source, payload. */
  datatype Piece = Piece(m: nat, key: nat, payload: seq<Word>)

  function PlacedAll(l: Layout, nm: nat, nSources: nat, block: seq<Word>, ps: seq<Piece>): (b: seq<Word>)
    requires WholeWords(l) && nm > 0
    requires forall p <- ps :: |p.payload| == PayloadWords(l)
    ensures |b| == |block|
  {
    if ps == [] then block
    else
      var last := ps[|ps| - 1];
      Placed(l, nm, nSources, PlacedAll(l, nm, nSources, block, ps[..|ps| - 1]), last.m, last.key, last.payload)
  }

  /** Order does not matter, and neither do repeats of a packet: as long as all
      payloads come from one stream, a word whose packet has been stored holds
      that packet's word, and any other word is as it was. */
  lemma {:induction false} OrderIndependent(l: Layout, nm: nat, nSources: nat, block: seq<Word>, ps: seq<Piece>,
                                            stream: (nat, nat) -> seq<Word>, w: nat)
    requires WholeWords(l) && nm > 0
    requires forall p <- ps :: |p.payload| == PayloadWords(l) && p.payload == stream(p.m, p.key)
    requires w < |block|
    ensures var c := Owner(l, nm, w);
            PlacedAll(l, nm, nSources, block, ps)[w] ==
            if w < UsedWords(l, nm, nSources) && exists p <- ps :: p.m == c.m && p.key == c.key
            then (PlacementSurjective(l, nm, nSources, w); stream(c.m, c.key)[c.j])
            else block[w]
  {
    if ps != [] {
      var front, last := ps[..|ps| - 1], ps[|ps| - 1];
      assert ps == front + [last];
      OrderIndependent(l, nm, nSources, block, front, stream, w);
      var c := Owner(l, nm, w);
      assert (exists p <- ps :: p.m == c.m && p.key == c.key)
        <==> (exists p <- front :: p.m == c.m && p.key == c.key) || (last.m == c.m && last.key == c.key);
    }
  }

  /** After every expected packet has arrived, in whatever order, the used part
      of the block is exactly the rearranged stream. */
  lemma CompleteBlock(l: Layout, nm: nat, nSources: nat, block: seq<Word>, ps: seq<Piece>,
                      stream: (nat, nat) -> seq<Word>)
    requires WholeWords(l) && nm > 0
    requires |block| >= UsedWords(l, nm, nSources)
    requires forall p <- ps :: |p.payload| == PayloadWords(l) && p.payload == stream(p.m, p.key)
    requires forall m: nat, key: nat :: m < nm && key < KeyCount(l, nSources) ==>
                |stream(m, key)| == PayloadWords(l) && exists p <- ps :: p.m == m && p.key == key
    ensures forall m: nat, key: nat, j: nat :: IsCell(l, nm, nSources, Cell(m, key, j)) ==>
              Addr(l, nm, Cell(m, key, j)) < |block|
              && PlacedAll(l, nm, nSources, block, ps)[Addr(l, nm, Cell(m, key, j))] == stream(m, key)[j]
  {
    forall m: nat, key: nat, j: nat | IsCell(l, nm, nSources, Cell(m, key, j))
      ensures Addr(l, nm, Cell(m, key, j)) < |block|
      ensures PlacedAll(l, nm, nSources, block, ps)[Addr(l, nm, Cell(m, key, j))] == stream(m, key)[j]
    {
      var c := Cell(m, key, j);
      PlacementInjective(l, nm, nSources, c);
      OrderIndependent(l, nm, nSources, block, ps, stream, Addr(l, nm, c));
    }
  }
}
