/** Which hits of an output block go into which hit table of the file. */
module HitTables {
  import opened Arith
  import opened Labels
  import opened Spectrum
  import opened Detector

  datatype Observatory = AoSite | GbtSite | FastSite

  /** Sizes of an output block. At FAST a block is of one polarisation. */
  datatype Form = Form(site: Observatory, nBors: nat, nPols: nat, maxHits: nat)

  predicate ValidForm(f: Form) {
    f.nBors > 0 && f.nPols > 0 && (f.site.FastSite? ==> f.nPols == 1)
  }

  function Tables(f: Form): (n: nat)
    requires ValidForm(f)
    ensures n > 0
  {
    CellBound(0, 0, f.nBors, f.nPols);
    f.nBors * f.nPols
  }

  /** An output block as the output thread sees it. */
  datatype OutBlock = OutBlock(numChan: nat, sid: nat, hits: seq<seq<Hit>>, missed: seq<nat>)

  /** The hits of a beam or sub-spectrum fit the arrays write_hits collects them in. */
  predicate ValidBlock(f: Form, b: OutBlock) {
    && |b.hits| == |b.missed| == f.nBors
    && forall x :: 0 <= x < f.nBors ==> |b.hits[x]| <= f.maxHits
  }

  datatype Row = Row(detPow: real, meanPow: real, chan: nat, fine: nat)

  /** One hit table: its keys and its rows. */
  datatype Table = Table(beampol: nat, nhits: nat, missed: nat, rows: seq<Row>)

  function RowOf(h: Hit): Row {
    Row(h.power, h.baseline, h.site.chan, h.site.fine)
  }

  predicate IsDc(h: Hit) {
    h.site.fine == 0
  }

  /** Whether a hit is written for an input. */
  predicate Takes(f: Form, input: nat, h: Hit) {
    (if f.site.FastSite? then input == 0 else h.site.pol == input) && !IsDc(h)
  }

  /** The rows of an input among the first `k` hits. */
  function Selected(f: Form, input: nat, hits: seq<Hit>, k: nat): (rows: seq<Row>)
    requires k <= |hits|
    ensures |rows| <= k
  {
    if k == 0 then []
    else Selected(f, input, hits, k - 1) + if Takes(f, input, hits[k - 1]) then [RowOf(hits[k - 1])] else []
  }

  /** The BORSPOL key: the number of the table, at FAST from the source ID instead. */
  function BeamPol(f: Form, sid: nat, bors: nat, input: nat): nat {
    if f.site.FastSite? then (sid / 2) * 2 + sid % 2 else bors * f.nPols + input
  }

  function TableOf(f: Form, b: OutBlock, bors: nat, input: nat): Table
    requires ValidBlock(f, b) && bors < f.nBors
  {
    var rows := Selected(f, input, b.hits[bors], |b.hits[bors]|);
    Table(BeamPol(f, b.sid, bors, input), |rows|, b.missed[bors], rows)
  }

  /** The first `x` tables of a block: beams or sub-spectra in order, inputs in order. */
  function TablesOf(f: Form, b: OutBlock, x: nat): (ts: seq<Table>)
    requires ValidForm(f) && ValidBlock(f, b) && x <= Tables(f)
    ensures |ts| == x
  {
    if x == 0 then []
    else
      RowBound(x - 1, f.nBors, f.nPols);
      TablesOf(f, b, x - 1) + [TableOf(f, b, (x - 1) / f.nPols, (x - 1) % f.nPols)]
  }

  lemma {:induction false} TableAt(f: Form, b: OutBlock, x: nat, bors: nat, input: nat)
    requires ValidForm(f) && ValidBlock(f, b) && x <= Tables(f)
    requires bors < f.nBors && input < f.nPols && bors * f.nPols + input < x
    ensures bors * f.nPols + input >= 0
    ensures TablesOf(f, b, x)[bors * f.nPols + input] == TableOf(f, b, bors, input)
  {
    MulMono(0, bors, f.nPols);
    if bors * f.nPols + input == x - 1 {
      DivModUnique(bors, input, f.nPols);
    } else {
      TableAt(f, b, x - 1, bors, input);
    }
  }

  // ---- every hit in one table -------------------------------------------------------------

  /** Where the rows of an input come from. */
  function Positions(f: Form, input: nat, hits: seq<Hit>, k: nat): (at: seq<nat>)
    requires k <= |hits|
  {
    if k == 0 then []
    else Positions(f, input, hits, k - 1) + if Takes(f, input, hits[k - 1]) then [k - 1] else []
  }

  /** The rows are those of exactly the hits taken, each once, in the order of the hits. */
  lemma {:induction false} SelectedExact(f: Form, input: nat, hits: seq<Hit>, k: nat)
    requires k <= |hits|
    ensures var rows, at := Selected(f, input, hits, k), Positions(f, input, hits, k);
            && |rows| == |at|
            && (forall j :: 0 <= j < |at| ==> at[j] < k && rows[j] == RowOf(hits[at[j]]))
            && (forall i, j :: 0 <= i < j < |at| ==> at[i] < at[j])
            && (forall i: nat :: i in at <==> i < k && Takes(f, input, hits[i]))
  {
    hide Takes, RowOf;
    if k > 0 {
      SelectedExact(f, input, hits, k - 1);
    }
  }

  /** Rows that are those of certain hits, at `at`: the ones of the input's polarisation (at
      FAST, where a block is of one polarisation, all of them) outside the first fine
      channel, in the order of the hits, with power, baseline and channels of each. */
  ghost predicate RowsOfHits(fast: bool, input: nat, hits: seq<Hit>, rows: seq<Row>, at: seq<nat>) {
    && |rows| == |at|
    && (forall i, j :: 0 <= i < j < |at| ==> at[i] < at[j])
    && (forall i: nat :: i in at <==>
          i < |hits| && hits[i].site.fine != 0 && (if fast then input == 0 else hits[i].site.pol == input))
    && (forall j :: 0 <= j < |at| ==>
          && at[j] < |hits|
          && rows[j].detPow == hits[at[j]].power && rows[j].meanPow == hits[at[j]].baseline
          && rows[j].chan == hits[at[j]].site.chan && rows[j].fine == hits[at[j]].site.fine)
  }

  /** The table of a beam or sub-spectrum and an input: its number (at FAST the source ID),
      as many hits as rows, the losses of its beam or sub-spectrum, and the rows. */
  lemma TableMeans(f: Form, b: OutBlock, bors: nat, input: nat) returns (at: seq<nat>)
    requires ValidForm(f) && ValidBlock(f, b) && bors < f.nBors && input < f.nPols
    ensures var t := TableOf(f, b, bors, input);
            && t.beampol == (if f.site.FastSite? then b.sid else bors * f.nPols + input)
            && t.nhits == |t.rows| && t.missed == b.missed[bors]
            && RowsOfHits(f.site.FastSite?, input, b.hits[bors], t.rows, at)
  {
    var hits := b.hits[bors];
    at := Positions(f, input, hits, |hits|);
    SelectedExact(f, input, hits, |hits|);
    forall j | 0 <= j < |at| ensures at[j] < |hits| && TableOf(f, b, bors, input).rows[j] == RowOf(hits[at[j]]) {
    }
  }

  /** A hit that is in no table: its polarisation has no input. */
  predicate IsStray(f: Form, h: Hit) {
    !IsDc(h) && !f.site.FastSite? && h.site.pol >= f.nPols
  }

  /** A hit is written for exactly one input, unless it is in the DC bin or stray, when
      it is written for none. */
  lemma HitInOneTable(f: Form, h: Hit, i: nat, j: nat)
    requires ValidForm(f) && i < f.nPols && j < f.nPols
    ensures Takes(f, i, h) && Takes(f, j, h) ==> i == j
    ensures (exists x: nat :: x < f.nPols && Takes(f, x, h)) <==> !IsDc(h) && !IsStray(f, h)
  {
    if !IsDc(h) && !IsStray(f, h) {
      assert Takes(f, if f.site.FastSite? then 0 else h.site.pol, h);
    }
  }

  /** Rows written for the inputs below `n`. */
  function RowCount(f: Form, hits: seq<Hit>, n: nat): nat {
    if n == 0 then 0 else RowCount(f, hits, n - 1) + |Selected(f, n - 1, hits, |hits|)|
  }

  /** The two kinds of hits that are in no table. */
  datatype Kind = Dc | Stray

  predicate Is(f: Form, k: Kind, h: Hit) {
    match k
    case Dc => IsDc(h)
    case Stray => IsStray(f, h)
  }

  function Number(f: Form, hits: seq<Hit>, p: Kind): nat {
    if hits == [] then 0 else Number(f, hits[..|hits| - 1], p) + if Is(f, p, hits[|hits| - 1]) then 1 else 0
  }

  lemma {:induction false} SelectedPrefix(f: Form, input: nat, hits: seq<Hit>, k: nat, n: nat)
    requires k <= n <= |hits|
    ensures Selected(f, input, hits[..n], k) == Selected(f, input, hits, k)
  {
    hide Takes, RowOf;
    if k > 0 {
      SelectedPrefix(f, input, hits, k - 1, n);
      assert hits[..n][k - 1] == hits[k - 1];
    }
  }

  /** One more hit adds a row to the inputs that take it. */
  lemma {:induction false} RowCountNext(f: Form, hits: seq<Hit>, n: nat)
    requires ValidForm(f) && hits != [] && n <= f.nPols
    ensures var h := hits[|hits| - 1];
            RowCount(f, hits, n) == RowCount(f, hits[..|hits| - 1], n)
                                    + if exists x: nat :: x < n && Takes(f, x, h) then 1 else 0
  {
    hide Takes, RowOf;
    if n > 0 {
      var k, h := |hits| - 1, hits[|hits| - 1];
      RowCountNext(f, hits, n - 1);
      SelectedPrefix(f, n - 1, hits, k, k);
      forall x: nat | x < n && Takes(f, x, h) && Takes(f, n - 1, h) ensures x == n - 1 {
        HitInOneTable(f, h, x, n - 1);
      }
    }
  }

  /** Rows written for a beam or sub-spectrum, DC hits and stray hits together are its hits. */
  lemma {:induction false} RowsConserved(f: Form, hits: seq<Hit>)
    requires ValidForm(f)
    ensures RowCount(f, hits, f.nPols) + Number(f, hits, Dc) + Number(f, hits, Stray) == |hits|
    decreases |hits|
  {
    if hits == [] {
      NoRows(f, f.nPols);
    } else {
      var h := hits[|hits| - 1];
      RowsConserved(f, hits[..|hits| - 1]);
      RowCountNext(f, hits, f.nPols);
      HitInOneTable(f, h, 0, 0);
    }
  }

  lemma {:induction false} NoRows(f: Form, n: nat)
    ensures RowCount(f, [], n) == 0
  {
    if n > 0 {
      NoRows(f, n - 1);
    }
  }

  /** Rows of a list of tables. */
  function RowTotal(ts: seq<Table>): nat {
    if ts == [] then 0 else RowTotal(ts[..|ts| - 1]) + ts[|ts| - 1].nhits
  }

  /** Rows of all inputs of the first `n` beams or sub-spectra; their hits, DC hits and stray hits. */
  function BorsRows(f: Form, b: OutBlock, n: nat): nat
    requires n <= |b.hits|
  {
    if n == 0 then 0 else BorsRows(f, b, n - 1) + RowCount(f, b.hits[n - 1], f.nPols)
  }

  function HitTotal(b: OutBlock, n: nat): nat
    requires n <= |b.hits|
  {
    if n == 0 then 0 else HitTotal(b, n - 1) + |b.hits[n - 1]|
  }

  function NumberTotal(f: Form, b: OutBlock, n: nat, p: Kind): nat
    requires n <= |b.hits|
  {
    if n == 0 then 0 else NumberTotal(f, b, n - 1, p) + Number(f, b.hits[n - 1], p)
  }

  lemma OneMoreTable(f: Form, b: OutBlock, x: nat)
    requires ValidForm(f) && ValidBlock(f, b) && x < Tables(f)
    ensures x / f.nPols < f.nBors
    ensures RowTotal(TablesOf(f, b, x + 1)) == RowTotal(TablesOf(f, b, x))
            + |Selected(f, x % f.nPols, b.hits[x / f.nPols], |b.hits[x / f.nPols]|)|
  {
    hide Selected, BeamPol;
    RowBound(x, f.nBors, f.nPols);
    var ts := TablesOf(f, b, x + 1);
    assert ts[..|ts| - 1] == TablesOf(f, b, x);
  }

  lemma {:induction false} TablesHoldRows(f: Form, b: OutBlock, bors: nat, input: nat)
    requires ValidForm(f) && ValidBlock(f, b) && bors <= f.nBors && input <= f.nPols
    requires bors == f.nBors ==> input == 0
    ensures 0 <= bors * f.nPols + input <= Tables(f)
    ensures RowTotal(TablesOf(f, b, bors * f.nPols + input))
            == BorsRows(f, b, bors) + if bors < f.nBors then RowCount(f, b.hits[bors], input) else 0
    decreases bors, input
  {
    hide Selected, TablesOf, RowTotal, ValidBlock;
    assert ValidBlock(f, b) ==> |b.hits| == f.nBors by { BlockSize(f, b); }
    MulMono(0, bors, f.nPols);
    MulMono(bors, f.nBors, f.nPols);
    if input > 0 {
      TablesHoldRows(f, b, bors, input - 1);
      CellBound(bors, input - 1, f.nBors, f.nPols);
      DivModUnique(bors, input - 1, f.nPols);
      OneMoreTable(f, b, bors * f.nPols + (input - 1));
    } else if bors > 0 {
      TablesHoldRows(f, b, bors - 1, f.nPols);
      assert bors * f.nPols == (bors - 1) * f.nPols + f.nPols;
    } else {
      NoTables(f, b);
    }
  }

  lemma BlockSize(f: Form, b: OutBlock)
    requires ValidBlock(f, b)
    ensures |b.hits| == |b.missed| == f.nBors
  {
  }

  lemma NoTables(f: Form, b: OutBlock)
    requires ValidForm(f) && ValidBlock(f, b)
    ensures RowTotal(TablesOf(f, b, 0)) == 0
  {
  }

  lemma {:induction false} BorsConserved(f: Form, b: OutBlock, n: nat)
    requires ValidForm(f) && n <= |b.hits|
    ensures BorsRows(f, b, n) + NumberTotal(f, b, n, Dc) + NumberTotal(f, b, n, Stray) == HitTotal(b, n)
  {
    if n > 0 {
      BorsConserved(f, b, n - 1);
      RowsConserved(f, b.hits[n - 1]);
    }
  }

  lemma {:induction false} NoneOf(f: Form, hits: seq<Hit>, p: Kind)
    ensures Number(f, hits, p) == 0 <==> forall h <- hits :: !Is(f, p, h)
    decreases |hits|
  {
    if hits != [] {
      NoneOf(f, hits[..|hits| - 1], p);
      assert hits == hits[..|hits| - 1] + [hits[|hits| - 1]];
    }
  }

  lemma {:induction false} NoneInBlock(f: Form, b: OutBlock, n: nat, p: Kind)
    requires n <= |b.hits|
    ensures NumberTotal(f, b, n, p) == 0 <==> forall x, h :: 0 <= x < n && h in b.hits[x] ==> !Is(f, p, h)
  {
    if n > 0 {
      NoneInBlock(f, b, n - 1, p);
      NoneOf(f, b.hits[n - 1], p);
    }
  }

  lemma AllTablesHoldRows(f: Form, b: OutBlock)
    requires ValidForm(f) && ValidBlock(f, b)
    ensures RowTotal(TablesOf(f, b, Tables(f))) == BorsRows(f, b, f.nBors)
  {
    hide TablesOf, RowTotal, BorsRows;
    TablesHoldRows(f, b, f.nBors, 0);
    assert f.nBors * f.nPols + 0 == Tables(f);
  }

  /** Every hit that is not in the DC bin has an input. */
  ghost predicate AllHaveInput(f: Form, b: OutBlock) {
    forall x, h :: 0 <= x < |b.hits| && h in b.hits[x] ==> IsDc(h) || f.site.FastSite? || h.site.pol < f.nPols
  }

  /** The rows of a block's tables and its DC hits are its hits exactly when every
      other hit's polarisation has an input. */
  lemma HitsConserved(f: Form, b: OutBlock)
    requires ValidForm(f) && ValidBlock(f, b)
    ensures RowTotal(TablesOf(f, b, Tables(f))) + NumberTotal(f, b, f.nBors, Dc) == HitTotal(b, f.nBors)
       <==> AllHaveInput(f, b)
  {
    hide Number, NumberTotal, TablesOf, RowTotal, BorsRows, HitTotal, Tables;
    AllTablesHoldRows(f, b);
    BorsConserved(f, b, f.nBors);
    NoneInBlock(f, b, f.nBors, Stray);
    forall x, h | 0 <= x < |b.hits| && h in b.hits[x]
      ensures !Is(f, Stray, h) <==> IsDc(h) || f.site.FastSite? || h.site.pol < f.nPols
    {
    }
  }

  /** From the GPU to the file, with the two inputs of Arecibo and Green Bank: all hits of
      a block are in its tables, but for those in the DC bin. */
  lemma GpuToFile(f: Form, b: OutBlock, o: Order, n: nat, r: nat, t: real, maxhits: nat, ps: seq<seq<real>>)
    requires ValidForm(f) && ValidBlock(f, b) && ValidOrder(o) && f.nPols == 2
    requires |ps| == f.nBors && forall x :: 0 <= x < f.nBors ==> Shape(ps[x], n, r)
    requires forall x :: 0 <= x < f.nBors ==> b.hits[x] == Detected(o, x, ps[x], n, r, t, maxhits)
    ensures RowTotal(TablesOf(f, b, Tables(f))) + NumberTotal(f, b, f.nBors, Dc) == HitTotal(b, f.nBors)
  {
    hide NumberTotal, TablesOf, RowTotal, HitTotal, Tables, Detected, IsDc, Shape, ValidOrder;
    forall x, h | 0 <= x < |b.hits| && h in b.hits[x] ensures h.site.pol < f.nPols {
      DetectedPol(o, x, ps[x], n, r, t, maxhits, h);
    }
    HitsConserved(f, b);
  }
}
