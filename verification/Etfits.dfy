/** The writer of ETFITS files: when files are opened, rolled and closed, and what is in
    them, for every run of the output thread. All CFITSIO calls are taken to succeed. */
module Etfits {
  import opened HitTables

  // ---- CFITSIO -----------------------------------------------------------------------------

  /** The hit table of the template, and a table just created. */
  const BLANK: Table := Table(0, 0, 0, [])

  /** A file: its hit tables, how often the template's own was selected, how often the
      file was closed, and the number of rows reported when it was. */
  datatype File = File(tables: seq<Table>, templateUses: nat, closes: nat, reported: nat)

  /** All files ever created; calls go to the table `hdu` of the last. */
  datatype Disk = Disk(files: seq<File>, hdu: nat)

  /** A call needs a file that has been created and not closed. */
  predicate Writable(d: Disk) {
    d.files != [] && d.files[|d.files| - 1].closes == 0
  }

  function Current(d: Disk): File
    requires Writable(d)
  {
    d.files[|d.files| - 1]
  }

  function WithCurrent(d: Disk, file: File, hdu: nat): Disk
    requires Writable(d)
  {
    Disk(d.files[..|d.files| - 1] + [file], hdu)
  }

  function FitsCreateTemplate(d: Disk): Disk {
    Disk(d.files + [File([BLANK], 0, 0, 0)], 0)
  }

  function FitsCloseFile(d: Disk, rows: nat): Disk
    requires Writable(d)
  {
    WithCurrent(d, Current(d).(closes := 1, reported := rows), d.hdu)
  }

  /** To the first table of the name, the template's. */
  function FitsMovnamHdu(d: Disk): Disk
    requires Writable(d)
  {
    WithCurrent(d, Current(d).(templateUses := Current(d).templateUses + 1), 0)
  }

  function FitsCreateTbl(d: Disk): Disk
    requires Writable(d)
  {
    WithCurrent(d, Current(d).(tables := Current(d).tables + [BLANK]), |Current(d).tables|)
  }

  function FitsUpdateKeys(d: Disk, beampol: nat, nhits: nat, missed: nat): Disk
    requires Writable(d) && d.hdu < |Current(d).tables|
  {
    var t := Current(d).tables[d.hdu];
    WithCurrent(d, Current(d).(tables := Current(d).tables[d.hdu := Table(beampol, nhits, missed, t.rows)]), d.hdu)
  }

  /** Columns are written from the first row on; rows behind stay. */
  function FitsWriteCols(d: Disk, rows: seq<Row>): Disk
    requires Writable(d) && d.hdu < |Current(d).tables|
  {
    var t := Current(d).tables[d.hdu];
    var all := if |rows| < |t.rows| then rows + t.rows[|rows|..] else rows;
    WithCurrent(d, Current(d).(tables := Current(d).tables[d.hdu := t.(rows := all)]), d.hdu)
  }

  // ---- etfits_t ----------------------------------------------------------------------------

  datatype Writer = Writer(newRun: bool, newFile: bool, fileOpen: bool, integrationCnt: nat, beampolCnt: nat,
                           totRows: nat, fileCnt: nat, fileNum: nat, disk: Disk)

  /** init_etfits. */
  function Init(): Writer {
    Writer(true, true, false, 0, 0, 0, 0, 1, Disk([], 0))
  }

  /** Files can be written, and have their template table, exactly while they are open. */
  predicate Sound(w: Writer) {
    && (w.fileOpen <==> Writable(w.disk))
    && (w.fileOpen ==> Current(w.disk).tables != [])
    && (w.newRun ==> !w.fileOpen)
    && (!w.fileOpen ==> w.newFile)
  }

  /** etfits_create. */
  function Created(w: Writer): Writer {
    w.(newRun := false, totRows := 0, fileOpen := true, disk := FitsCreateTemplate(w.disk))
  }

  /** etfits_close. */
  function Closed(w: Writer): Writer
    requires Writable(w.disk)
  {
    w.(fileOpen := false, disk := FitsCloseFile(w.disk, w.totRows))
  }

  function ClosedIfOpen(w: Writer): Writer
    requires Sound(w)
  {
    if w.fileOpen then Closed(w) else w
  }

  /** The start of write_etfits: a new file when one is due. */
  function Ready(w: Writer): Writer
    requires Sound(w)
  {
    if w.newRun || w.newFile then
      var closed := if w.newRun then w else ClosedIfOpen(w).(integrationCnt := 0);
      var made := Created(closed.(newFile := false));
      made.(fileCnt := made.fileCnt + 1)
    else w
  }

  /** write_hits_header and the columns of one table. */
  function PutTable(w: Writer, t: Table): Writer
    requires Writable(w.disk) && Current(w.disk).tables != []
  {
    var d := if w.integrationCnt == 0 && w.beampolCnt == 0 then FitsMovnamHdu(w.disk) else FitsCreateTbl(w.disk);
    var keyed := FitsUpdateKeys(d, t.beampol, t.nhits, t.missed);
    w.(beampolCnt := w.beampolCnt + 1, disk := FitsWriteCols(keyed, t.rows))
  }

  /** write_hits, up to its x-th table. */
  function PutTables(w: Writer, f: Form, b: OutBlock, x: nat): (v: Writer)
    requires ValidForm(f) && ValidBlock(f, b) && x <= Tables(f)
    requires Writable(w.disk) && Current(w.disk).tables != []
    ensures Writable(v.disk) && Current(v.disk).tables != []
  {
    if x == 0 then w.(beampolCnt := 0)
    else PutTable(PutTables(w, f, b, x - 1), TablesOf(f, b, x)[x - 1])
  }

  /** write_etfits: one integration; `rolls` says that the file has reached its size. */
  function Written(w: Writer, f: Form, b: OutBlock, rolls: bool): Writer
    requires ValidForm(f) && ValidBlock(f, b) && Sound(w)
  {
    var put := PutTables(Ready(w), f, b, Tables(f));
    var counted := put.(integrationCnt := put.integrationCnt + 1,
                        totRows := put.totRows + RowTotal(TablesOf(f, b, Tables(f))));
    if rolls then counted.(newFile := true, fileNum := counted.fileNum + 1) else counted
  }

  /** A disk whose last file is `file` and whose others are the first ones of `d`. */
  predicate CurrentIs(d: Disk, e: Disk, file: File)
    requires Writable(d)
  {
    e.files == d.files[..|d.files| - 1] + [file]
  }

  lemma CurrentAgain(d: Disk, e: Disk, file: File, g: File)
    requires Writable(d) && CurrentIs(d, e, file) && file.closes == 0
    ensures Writable(e) && Current(e) == file
    ensures forall hdu :: CurrentIs(d, WithCurrent(e, g, hdu), g)
  {
    assert e.files[..|e.files| - 1] == d.files[..|d.files| - 1];
  }

  lemma CurrentSame(d: Disk)
    requires Writable(d)
    ensures CurrentIs(d, d, Current(d))
  {
  }

  /** Keys and columns fill a table that is still blank. */
  lemma FillsBlank(d: Disk, e: Disk, file: File, t: Table)
    requires Writable(d) && CurrentIs(d, e, file) && file.closes == 0
    requires e.hdu < |file.tables| && file.tables[e.hdu] == BLANK
    ensures Writable(e) && Current(e) == file
    ensures var keyed := FitsUpdateKeys(e, t.beampol, t.nhits, t.missed);
            && Writable(keyed) && keyed.hdu < |Current(keyed).tables|
            && CurrentIs(d, FitsWriteCols(keyed, t.rows), file.(tables := file.tables[e.hdu := t]))
  {
    CurrentAgain(d, e, file, file);
    var once := file.(tables := file.tables[e.hdu := Table(t.beampol, t.nhits, t.missed, [])]);
    var keyed := FitsUpdateKeys(e, t.beampol, t.nhits, t.missed);
    CurrentAgain(d, e, file, once);
    assert CurrentIs(d, keyed, once);
    var twice := once.(tables := once.tables[e.hdu := t]);
    CurrentAgain(d, keyed, once, twice);
    assert once.tables[e.hdu := t] == file.tables[e.hdu := t];
  }

  /** One more table, on top of an empty template or behind what is there. */
  lemma PutTableAdds(d: Disk, w: Writer, cur: File, t: Table)
    requires Writable(d) && CurrentIs(d, w.disk, cur) && cur.closes == 0 && cur.tables != []
    requires w.integrationCnt == 0 && w.beampolCnt == 0 ==> cur.tables == [BLANK]
    ensures Writable(w.disk) && Current(w.disk) == cur
    ensures var v, first := PutTable(w, t), w.integrationCnt == 0 && w.beampolCnt == 0;
            && v == w.(beampolCnt := w.beampolCnt + 1, disk := v.disk)
            && CurrentIs(d, v.disk, cur.(tables := (if first then [] else cur.tables) + [t],
                                         templateUses := cur.templateUses + if first then 1 else 0))
  {
    CurrentAgain(d, w.disk, cur, cur);
    hide FitsUpdateKeys, FitsWriteCols;
    if w.integrationCnt == 0 && w.beampolCnt == 0 {
      var used := cur.(templateUses := cur.templateUses + 1);
      CurrentAgain(d, w.disk, cur, used);
      FillsBlank(d, FitsMovnamHdu(w.disk), used, t);
      assert used.tables[0 := t] == [] + [t];
    } else {
      var more := cur.(tables := cur.tables + [BLANK]);
      CurrentAgain(d, w.disk, cur, more);
      FillsBlank(d, FitsCreateTbl(w.disk), more, t);
      assert more.tables[|cur.tables| := t] == cur.tables + [t];
    }
  }

  /** The tables of a file after some tables of one more integration. */
  function Grown(cnt: nat, tables: seq<Table>, more: seq<Table>): seq<Table> {
    if more == [] then tables else (if cnt == 0 then [] else tables) + more
  }

  function GrownFile(cur: File, cnt: nat, more: seq<Table>): File {
    cur.(tables := Grown(cnt, cur.tables, more),
         templateUses := cur.templateUses + if cnt == 0 && more != [] then 1 else 0)
  }

  lemma {:induction false} PutTablesAdd(w: Writer, f: Form, b: OutBlock, x: nat)
    requires ValidForm(f) && ValidBlock(f, b) && x <= Tables(f)
    requires Writable(w.disk) && Current(w.disk).tables != []
    requires w.integrationCnt == 0 ==> Current(w.disk).tables == [BLANK]
    ensures var v := PutTables(w, f, b, x);
            && v == w.(beampolCnt := x, disk := v.disk)
            && CurrentIs(w.disk, v.disk, GrownFile(Current(w.disk), w.integrationCnt, TablesOf(f, b, x)))
  {
    hide PutTable, CurrentIs, TablesOf, Tables, ValidForm, ValidBlock;
    var cur := Current(w.disk);
    if x == 0 {
      CurrentSame(w.disk);
    } else {
      var ts, t := TablesOf(f, b, x - 1), TablesOf(f, b, x)[x - 1];
      PutTablesAdd(w, f, b, x - 1);
      assert TablesOf(f, b, x) == ts + [t] by { TablesNext(f, b, x); }
      PutTableAdds(w.disk, PutTables(w, f, b, x - 1), GrownFile(cur, w.integrationCnt, ts), t);
      GrowOnce(cur, w.integrationCnt, ts, t);
    }
  }

  lemma TablesNext(f: Form, b: OutBlock, x: nat)
    requires ValidForm(f) && ValidBlock(f, b) && 0 < x <= Tables(f)
    ensures TablesOf(f, b, x) == TablesOf(f, b, x - 1) + [TablesOf(f, b, x)[x - 1]]
  {
  }

  lemma GrowOnce(cur: File, cnt: nat, ts: seq<Table>, t: Table)
    requires cur.tables != []
    ensures var g, first := GrownFile(cur, cnt, ts), cnt == 0 && ts == [];
            GrownFile(cur, cnt, ts + [t]) == g.(tables := (if first then [] else g.tables) + [t],
                                                templateUses := g.templateUses + if first then 1 else 0)
  {
    assert (if cnt == 0 then [] else cur.tables) + (ts + [t]) == ((if cnt == 0 then [] else cur.tables) + ts) + [t];
    assert ts == [] ==> cur.tables + ts == cur.tables;
  }

  // ---- the output thread -------------------------------------------------------------------

  /** What the output thread learns about the observation for one block. */
  datatype Obs = Obs(testMode: bool, receiver: nat, webCntrl: int, runAlways: int)

  /** One turn of its loop. */
  datatype Event = Event(obs: Obs, block: OutBlock, rolls: bool)

  /** What it compares with: receiver (0: none yet), run_always and number of channels. */
  datatype Prior = Prior(receiver: nat, runAlways: int, numChan: nat)

  datatype State = State(w: Writer, prior: Prior)

  function PriorOf(e: Event): Prior {
    Prior(e.obs.receiver, e.obs.runAlways, e.block.numChan)
  }

  predicate Changed(f: Form, prior: Prior, e: Event) {
    !e.obs.testMode && (prior != PriorOf(e) || (f.site.GbtSite? && e.obs.webCntrl == 0))
  }

  predicate Writes(f: Form, e: Event) {
    e.obs.testMode
    || match f.site
       case AoSite => e.obs.receiver != 0 || e.obs.runAlways != 0
       case GbtSite => e.obs.runAlways != 0 && e.obs.webCntrl != 0
       case FastSite => e.obs.runAlways != 0
  }

  /** A file change event. */
  function Switched(f: Form, s: State, e: Event): (t: State)
    requires Sound(s.w)
    ensures Sound(t.w)
  {
    if Changed(f, s.prior, e) then State(ClosedIfOpen(s.w).(newFile := true), PriorOf(e)) else s
  }

  function Step(f: Form, s: State, e: Event): State
    requires ValidForm(f) && ValidBlock(f, e.block) && Sound(s.w)
  {
    var t := Switched(f, s, e);
    if Writes(f, e) then t.(w := Written(t.w, f, e.block, e.rolls)) else t
  }

  lemma SoundStep(f: Form, s: State, e: Event)
    requires ValidForm(f) && ValidBlock(f, e.block) && Sound(s.w)
    ensures Sound(Step(f, s, e).w)
  {
    var t := Switched(f, s, e);
    hide Switched;
    if Writes(f, e) {
      SoundWritten(t.w, f, e.block, e.rolls);
    }
  }

  lemma SoundWritten(w: Writer, f: Form, b: OutBlock, rolls: bool)
    requires ValidForm(f) && ValidBlock(f, b) && Sound(w)
    ensures Sound(Written(w, f, b, rolls)) && !Written(w, f, b, rolls).newRun
  {
    hide TablesOf, Tables, RowTotal, ValidBlock, ValidForm;
    PutTablesFrame(Ready(w), f, b, Tables(f));
  }

  lemma {:induction false} PutTablesFrame(w: Writer, f: Form, b: OutBlock, x: nat)
    requires ValidForm(f) && ValidBlock(f, b) && x <= Tables(f)
    requires Writable(w.disk) && Current(w.disk).tables != []
    ensures PutTables(w, f, b, x) == w.(beampolCnt := x, disk := PutTables(w, f, b, x).disk)
  {
    hide TablesOf, Tables, FitsUpdateKeys, FitsWriteCols;
    if x > 0 {
      PutTablesFrame(w, f, b, x - 1);
    }
  }

  predicate AllValid(f: Form, es: seq<Event>) {
    ValidForm(f) && forall e <- es :: ValidBlock(f, e.block)
  }

  function After(f: Form, es: seq<Event>): (s: State)
    requires AllValid(f, es)
    ensures Sound(s.w)
  {
    if es == [] then State(Init(), Prior(0, 0, 0))
    else
      var s := After(f, es[..|es| - 1]);
      SoundStep(f, s, es[|es| - 1]);
      Step(f, s, es[|es| - 1])
  }

  /** The end of the thread: the final close. */
  function Exit(w: Writer): Writer
    requires Sound(w)
  {
    ClosedIfOpen(w)
  }
}
