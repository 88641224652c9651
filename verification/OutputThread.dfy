/** The output thread and the ETFITS writer, updating their fields in place as the program
    does; each method is proved against the function of Etfits that says what it does. */
module OutputThread {
  import opened Arith
  import opened Detector
  import opened HitTables
  import opened Etfits
  import opened FileHistory

  /** The rows held by the four column arrays. */
  function RowsFrom(detPow: seq<real>, meanPow: seq<real>, chan: seq<nat>, fine: seq<nat>): (rows: seq<Row>)
    requires |detPow| == |meanPow| == |chan| == |fine|
    ensures |rows| == |detPow|
  {
    seq(|detPow|, j requires 0 <= j < |detPow| => Row(detPow[j], meanPow[j], chan[j], fine[j]))
  }

  lemma PutOneMore(w: Writer, f: Form, b: OutBlock, bors: nat, input: nat, x: nat)
    requires ValidForm(f) && ValidBlock(f, b) && bors < f.nBors && input < f.nPols
    requires Writable(w.disk) && Current(w.disk).tables != []
    requires x == bors * f.nPols + input
    ensures x + 1 <= Tables(f)
    ensures PutTables(w, f, b, x + 1) == PutTable(PutTables(w, f, b, x), TableOf(f, b, bors, input))
    ensures RowTotal(TablesOf(f, b, x + 1)) == RowTotal(TablesOf(f, b, x)) + TableOf(f, b, bors, input).nhits
  {
    hide PutTable, Selected, BeamPol, RowTotal;
    CellBound(bors, input, f.nBors, f.nPols);
    TableAt(f, b, x + 1, bors, input);
    OneMoreTable(f, b, x);
    DivModUnique(bors, input, f.nPols);
  }

  lemma TablesAre(f: Form)
    requires ValidForm(f)
    ensures Tables(f) == f.nBors * f.nPols
  {
  }

  class EtfitsFile {
    var newRun: bool
    var newFile: bool
    var fileOpen: bool
    var integrationCnt: nat
    var beampolCnt: nat
    var totRows: nat
    var fileCnt: nat
    var fileNum: nat
    var disk: Disk

    function Value(): Writer
      reads this
    {
      Writer(newRun, newFile, fileOpen, integrationCnt, beampolCnt, totRows, fileCnt, fileNum, disk)
    }

    constructor ()
      ensures Value() == Init()
    {
      newRun, newFile, fileOpen := true, true, false;
      integrationCnt, beampolCnt, totRows, fileCnt, fileNum := 0, 0, 0, 0, 1;
      disk := Disk([], 0);
    }

    method Create()
      modifies this
      ensures Value() == Created(old(Value()))
    {
      if newRun {
        newRun := false;
      }
      totRows := 0;
      disk := FitsCreateTemplate(disk);
      fileOpen := true;
    }

    method Close()
      requires Writable(disk)
      modifies this
      ensures Value() == Closed(old(Value()))
    {
      disk := FitsCloseFile(disk, totRows);
      fileOpen := false;
    }

    method CheckForFileRoll(rolls: bool)
      modifies `newFile, `fileNum
      ensures newFile == (old(newFile) || rolls) && fileNum == old(fileNum) + if rolls then 1 else 0
    {
      if rolls {
        fileNum := fileNum + 1;
        newFile := true;
      }
    }

    /** The table of one input: its header, then its columns. */
    method WriteTable(t: Table)
      requires Writable(disk) && Current(disk).tables != []
      modifies `beampolCnt, `disk
      ensures Value() == PutTable(old(Value()), t)
    {
      if integrationCnt == 0 && beampolCnt == 0 {
        disk := FitsMovnamHdu(disk);
      } else {
        disk := FitsCreateTbl(disk);
      }
      disk := FitsUpdateKeys(disk, t.beampol, t.nhits, t.missed);
      disk := FitsWriteCols(disk, t.rows);
      beampolCnt := beampolCnt + 1;
    }

    /** The hits of one input, into the column arrays. */
    method CollectHits(f: Form, input: nat, hits: seq<Hit>, detPow: array<real>, meanPow: array<real>,
                       chan: array<nat>, fine: array<nat>) returns (n: nat)
      requires detPow.Length == meanPow.Length == chan.Length == fine.Length && |hits| <= detPow.Length
      requires detPow != meanPow && chan != fine
      modifies detPow, meanPow, chan, fine
      ensures n <= detPow.Length
      ensures RowsFrom(detPow[..n], meanPow[..n], chan[..n], fine[..n]) == Selected(f, input, hits, |hits|)
    {
      n := 0;
      for i := 0 to |hits|
        invariant n <= i && n == |Selected(f, input, hits, i)|
        invariant forall j :: 0 <= j < n ==>
                    Row(detPow[j], meanPow[j], chan[j], fine[j]) == Selected(f, input, hits, i)[j]
      {
        var h := hits[i];
        if if f.site.FastSite? then input == 0 else h.site.pol == input {
          var thisFineChan := h.site.fine;
          if thisFineChan != 0 {
            detPow[n], meanPow[n], chan[n], fine[n] := h.power, h.baseline, h.site.chan, thisFineChan;
            n := n + 1;
          }
        }
      }
    }

    /** The hits of one input, collected and written. */
    method WriteInput(f: Form, b: OutBlock, bors: nat, input: nat, detPow: array<real>, meanPow: array<real>,
                      chan: array<nat>, fine: array<nat>) returns (n: nat)
      requires ValidBlock(f, b) && bors < f.nBors && Writable(disk) && Current(disk).tables != []
      requires detPow.Length == meanPow.Length == chan.Length == fine.Length == f.maxHits
      requires detPow != meanPow && chan != fine
      modifies `beampolCnt, `disk, detPow, meanPow, chan, fine
      ensures Value() == PutTable(old(Value()), TableOf(f, b, bors, input))
      ensures n == TableOf(f, b, bors, input).nhits
    {
      hide PutTable, Selected, BeamPol;
      n := CollectHits(f, input, b.hits[bors], detPow, meanPow, chan, fine);
      var rows := RowsFrom(detPow[..n], meanPow[..n], chan[..n], fine[..n]);
      WriteTable(Table(BeamPol(f, b.sid, bors, input), n, b.missed[bors], rows));
    }

    /** write_hits: one table for every beam or sub-spectrum and input. */
    method WriteHits(f: Form, b: OutBlock) returns (nhits: nat)
      requires ValidForm(f) && ValidBlock(f, b)
      requires Writable(disk) && Current(disk).tables != []
      modifies `beampolCnt, `disk
      ensures Value() == PutTables(old(Value()), f, b, Tables(f))
      ensures nhits == RowTotal(TablesOf(f, b, Tables(f)))
    {
      ghost var was := Value();
      hide PutTable, TableOf, TablesOf, RowTotal, ValidBlock, Tables, Current;
      assert Tables(f) == f.nBors * f.nPols by { TablesAre(f); }
      var detPow, meanPow := new real[f.maxHits](i => 0.0), new real[f.maxHits](i => 0.0);
      var chan, fine := new nat[f.maxHits](i => 0), new nat[f.maxHits](i => 0);
      nhits := 0;
      beampolCnt := 0;
      assert RowTotal(TablesOf(f, b, 0)) == 0 by { NoTables(f, b); }
      ghost var x: nat := 0;
      for bors := 0 to f.nBors
        invariant x == bors * f.nPols && x <= Tables(f)
        invariant Value() == PutTables(was, f, b, x)
        invariant nhits == RowTotal(TablesOf(f, b, x))
      {
        ghost var start := x;
        for input := 0 to f.nPols
          invariant x == start + input && x <= Tables(f)
          invariant Value() == PutTables(was, f, b, x)
          invariant nhits == RowTotal(TablesOf(f, b, x))
        {
          var nhitsThisInput := WriteInput(f, b, bors, input, detPow, meanPow, chan, fine);
          nhits := nhits + nhitsThisInput;
          PutOneMore(was, f, b, bors, input, x);
          x := x + 1;
        }
        assert (bors + 1) * f.nPols == bors * f.nPols + f.nPols;
      }
    }

    /** write_etfits: one integration, in a new file when one is due. */
    method WriteEtfits(f: Form, b: OutBlock, rolls: bool)
      requires ValidForm(f) && ValidBlock(f, b) && Sound(Value())
      modifies this
      ensures Value() == Written(old(Value()), f, b, rolls)
    {
      hide PutTables, TablesOf, RowTotal;
      ghost var was := Value();
      if newRun || newFile {
        newFile := false;
        if !newRun {
          if fileOpen {
            Close();
          }
          integrationCnt := 0;
        }
        Create();
        fileCnt := fileCnt + 1;
      }
      assert Value() == Ready(was);
      PutTablesFrame(Ready(was), f, b, Tables(f));
      var nhits := WriteHits(f, b);
      integrationCnt := integrationCnt + 1;
      totRows := totRows + nhits;
      CheckForFileRoll(rolls);
    }
  }

  class Output {
    const etf: EtfitsFile
    var priorReceiver: nat
    var priorRunAlways: int
    var numCoarseChan: nat

    function Value(): State
      reads this, etf
    {
      State(etf.Value(), Prior(priorReceiver, priorRunAlways, numCoarseChan))
    }

    constructor ()
      ensures fresh(etf) && Value() == State(Init(), Prior(0, 0, 0))
    {
      etf := new EtfitsFile();
      priorReceiver, priorRunAlways, numCoarseChan := 0, 0, 0;
    }

    /** One turn of the loop: a change of files if something changed, then the block. */
    method ProcessBlock(f: Form, e: Event)
      requires ValidForm(f) && ValidBlock(f, e.block) && Sound(Value().w)
      modifies this, etf
      ensures Value() == Step(f, old(Value()), e)
      ensures Sound(Value().w)
    {
      hide Written, ValidForm, ValidBlock;
      ghost var was := Value();
      SoundStep(f, was, e);
      if !e.obs.testMode {
        if || e.obs.receiver != priorReceiver || (f.site.GbtSite? && e.obs.webCntrl == 0)
           || e.obs.runAlways != priorRunAlways || numCoarseChan != e.block.numChan
        {
          if etf.fileOpen {
            etf.Close();
          }
          etf.newFile := true;
          priorReceiver, priorRunAlways, numCoarseChan := e.obs.receiver, e.obs.runAlways, e.block.numChan;
        }
      }
      assert Value() == Switched(f, was, e);
      if || e.obs.testMode
         || (f.site.AoSite? && (e.obs.receiver != 0 || e.obs.runAlways != 0))
         || (f.site.GbtSite? && e.obs.runAlways != 0 && e.obs.webCntrl != 0)
         || (f.site.FastSite? && e.obs.runAlways != 0)
      {
        etf.WriteEtfits(f, e.block, e.rolls);
      }
    }

    /** After the loop: the final close. */
    method Finish()
      requires Sound(Value().w)
      modifies etf
      ensures Value().w == Exit(old(Value().w))
    {
      if etf.fileOpen {
        etf.Close();
      }
    }
  }

  /** The whole thread: all blocks of a run, then the final close. */
  method RunOutput(f: Form, es: seq<Event>) returns (files: seq<File>)
    requires AllValid(f, es)
    ensures files == Exit(After(f, es).w).disk.files
    ensures files == [] <==> forall e <- es :: !ToBeWritten(f.site, e.obs)
  {
    var out := new Output();
    for i := 0 to |es|
      invariant AllValid(f, es[..i])
      invariant fresh(out) && fresh(out.etf)
      invariant out.Value() == After(f, es[..i])
    {
      assert es[i] in es;
      assert es[..i + 1][..i] == es[..i] && es[..i + 1][i] == es[i];
      assert forall e <- es[..i + 1] :: e in es;
      out.ProcessBlock(f, es[i]);
    }
    assert es[..|es|] == es;
    out.Finish();
    files := out.etf.disk.files;
    NoFiles(f, es);
  }
}
