/** The files of a run of the output thread, told from its events alone, and the proof
    that these are the files the writer leaves. */
module FileHistory {
  import opened HitTables
  import opened Etfits

  function Front<T>(s: seq<T>): (r: seq<T>)
    requires s != []
    ensures |r| == |s| - 1
  {
    s[..|s| - 1]
  }

  function Last<T>(s: seq<T>): T
    requires s != []
  {
    s[|s| - 1]
  }

  // ---- what should be in the files -----------------------------------------------------------

  /** What the last block outside test mode came with. */
  function LastSaid(es: seq<Event>): Prior {
    if es == [] then Prior(0, 0, 0)
    else if Last(es).obs.testMode then LastSaid(Front(es))
    else PriorOf(Last(es))
  }

  /** The last event is a file change event. */
  predicate ChangedNow(f: Form, es: seq<Event>)
    requires es != []
  {
    Changed(f, LastSaid(Front(es)), Last(es))
  }

  /** The next block written begins a file. */
  predicate Due(f: Form, es: seq<Event>) {
    if es == [] then true
    else if Writes(f, Last(es)) then Last(es).rolls
    else Due(f, Front(es)) || ChangedNow(f, es)
  }

  /** A file is open: something was written, and nothing changed since. */
  predicate Open(f: Form, es: seq<Event>) {
    es != [] && (Writes(f, Last(es)) || (Open(f, Front(es)) && !ChangedNow(f, es)))
  }

  /** The blocks of each file. */
  function Chapters(f: Form, es: seq<Event>): seq<seq<OutBlock>> {
    if es == [] then []
    else if Writes(f, Last(es)) then
      NextChapters(Chapters(f, Front(es)), Last(es).block, Due(f, Front(es)) || ChangedNow(f, es))
    else Chapters(f, Front(es))
  }

  function NextChapters(chs: seq<seq<OutBlock>>, b: OutBlock, due: bool): seq<seq<OutBlock>> {
    if due || chs == [] then chs + [[b]] else Front(chs) + [Last(chs) + [b]]
  }

  predicate AllBlocksValid(f: Form, bs: seq<OutBlock>) {
    ValidForm(f) && forall b <- bs :: ValidBlock(f, b)
  }

  /** The hit tables of blocks, one block after the other. */
  function AllTables(f: Form, bs: seq<OutBlock>): seq<Table>
    requires AllBlocksValid(f, bs)
  {
    if bs == [] then [] else AllTables(f, Front(bs)) + TablesOf(f, Last(bs), Tables(f))
  }

  /** A file with the blocks of a chapter: their tables, the template's used once; once
      closed, closed once with all rows counted. */
  function FileFor(f: Form, ch: seq<OutBlock>, open: bool): File
    requires AllBlocksValid(f, ch)
  {
    var ts := AllTables(f, ch);
    if open then File(ts, 1, 0, 0) else File(ts, 1, 1, RowTotal(ts))
  }

  predicate AllChaptersValid(f: Form, chs: seq<seq<OutBlock>>) {
    ValidForm(f) && forall c :: 0 <= c < |chs| ==> chs[c] != [] && AllBlocksValid(f, chs[c])
  }

  /** The files of some chapters, the last of them open or not. */
  function Library(f: Form, chs: seq<seq<OutBlock>>, open: bool): (files: seq<File>)
    requires AllChaptersValid(f, chs)
    ensures |files| == |chs|
  {
    seq(|chs|, c requires 0 <= c < |chs| => FileFor(f, chs[c], open && c == |chs| - 1))
  }

  // ---- the writer keeps to it ------------------------------------------------------------------

  ghost predicate RecordedAs(f: Form, w: Writer, chs: seq<seq<OutBlock>>, open: bool, due: bool) {
    && AllChaptersValid(f, chs)
    && w.disk.files == Library(f, chs, open)
    && w.fileCnt == |chs|
    && w.fileOpen == open && w.newFile == due
    && (w.newRun <==> chs == [])
    && (chs == [] ==> !open && due && w.integrationCnt == 0)
    && (!open ==> due)
    && (open ==> w.totRows == RowTotal(AllTables(f, Last(chs))) && w.integrationCnt == |Last(chs)|)
  }

  lemma LibraryGrows(f: Form, chs: seq<seq<OutBlock>>, ch: seq<OutBlock>)
    requires AllChaptersValid(f, chs) && ch != [] && AllBlocksValid(f, ch)
    ensures AllChaptersValid(f, chs + [ch])
    ensures Library(f, chs + [ch], true) == Library(f, chs, false) + [FileFor(f, ch, true)]
  {
    hide AllBlocksValid, FileFor;
  }

  lemma LibraryEnd(f: Form, chs: seq<seq<OutBlock>>, ch: seq<OutBlock>, open: bool)
    requires AllChaptersValid(f, chs) && chs != [] && ch != [] && AllBlocksValid(f, ch)
    ensures AllChaptersValid(f, Front(chs) + [ch])
    ensures Library(f, Front(chs) + [ch], open) == Front(Library(f, chs, true)) + [FileFor(f, ch, open)]
  {
    hide AllBlocksValid, FileFor;
  }

  lemma CloseRecorded(f: Form, w: Writer, chs: seq<seq<OutBlock>>, open: bool, due: bool)
    requires Sound(w) && RecordedAs(f, w, chs, open, due)
    ensures RecordedAs(f, ClosedIfOpen(w).(newFile := true), chs, false, true)
  {
    hide AllBlocksValid, AllTables, RowTotal;
    if open {
      LibraryEnd(f, chs, Last(chs), false);
      assert Front(chs) + [Last(chs)] == chs;
    } else {
      assert Library(f, chs, open) == Library(f, chs, false);
    }
  }

  /** A chapter gains a block. */
  lemma AllTablesNext(f: Form, bs: seq<OutBlock>, b: OutBlock)
    requires AllBlocksValid(f, bs) && ValidBlock(f, b)
    ensures AllBlocksValid(f, bs + [b])
    ensures AllTables(f, bs + [b]) == AllTables(f, bs) + TablesOf(f, b, Tables(f))
    ensures RowTotal(AllTables(f, bs + [b])) == RowTotal(AllTables(f, bs)) + RowTotal(TablesOf(f, b, Tables(f)))
  {
    hide TablesOf, Tables, RowTotal, ValidBlock, ValidForm;
    assert Front(bs + [b]) == bs;
    RowTotalAdds(AllTables(f, bs), TablesOf(f, b, Tables(f)));
  }

  lemma {:induction false} RowTotalAdds(s: seq<Table>, t: seq<Table>)
    ensures RowTotal(s + t) == RowTotal(s) + RowTotal(t)
    decreases |t|
  {
    if t == [] {
      assert s + t == s;
    } else {
      RowTotalAdds(s, Front(t));
      assert Front(s + t) == s + Front(t);
    }
  }

  lemma OneBlock(f: Form, b: OutBlock)
    requires ValidForm(f) && ValidBlock(f, b)
    ensures AllBlocksValid(f, [b]) && AllTables(f, [b]) == TablesOf(f, b, Tables(f))
  {
    AllTablesNext(f, [], b);
    assert [] + [b] == [b];
    assert [] + TablesOf(f, b, Tables(f)) == TablesOf(f, b, Tables(f));
  }

  /** A new file is there, blank, and all before are closed. */
  lemma ReadyRecorded(f: Form, w: Writer, chs: seq<seq<OutBlock>>, open: bool)
    requires Sound(w) && RecordedAs(f, w, chs, open, true)
    ensures var r := Ready(w);
            && r.disk.files == Library(f, chs, false) + [File([BLANK], 0, 0, 0)]
            && r.fileCnt == |chs| + 1 && r.fileOpen && !r.newFile && !r.newRun
            && r.totRows == 0 && r.integrationCnt == 0
  {
    CloseRecorded(f, w, chs, open, true);
  }

  lemma WriteRecorded(f: Form, w: Writer, chs: seq<seq<OutBlock>>, open: bool, due: bool, b: OutBlock, rolls: bool)
    requires Sound(w) && RecordedAs(f, w, chs, open, due) && ValidBlock(f, b)
    ensures RecordedAs(f, Written(w, f, b, rolls), NextChapters(chs, b, due), true, rolls)
  {
    hide Grown, PutTables, AllTables, TablesOf, Tables, RowTotal, ValidBlock, ValidForm;
    var r, ts := Ready(w), TablesOf(f, b, Tables(f));
    assert ts != [];
    if due {
      ReadyRecorded(f, w, chs, open);
      OneBlock(f, b);
      LibraryGrows(f, chs, [b]);
      PutTablesAdd(r, f, b, Tables(f));
      assert Grown(0, [BLANK], ts) == ts by { GrownNew(ts); }
      assert r.disk.files[..|r.disk.files| - 1] == Library(f, chs, false);
    } else {
      AllTablesNext(f, Last(chs), b);
      LibraryEnd(f, chs, Last(chs) + [b], true);
      var cur := Last(Library(f, chs, true));
      PutTablesAdd(r, f, b, Tables(f));
      assert Grown(w.integrationCnt, cur.tables, ts) == cur.tables + ts by {
        GrownOld(w.integrationCnt, cur.tables, ts);
      }
    }
  }

  lemma GrownNew(ts: seq<Table>)
    requires ts != []
    ensures Grown(0, [BLANK], ts) == ts
  {
  }

  lemma GrownOld(cnt: nat, was: seq<Table>, ts: seq<Table>)
    requires ts != [] && cnt > 0
    ensures Grown(cnt, was, ts) == was + ts
  {
  }

  lemma FrontValid(f: Form, es: seq<Event>)
    requires AllValid(f, es) && es != []
    ensures AllValid(f, Front(es)) && ValidForm(f) && ValidBlock(f, Last(es).block)
  {
    assert Last(es) in es;
    assert forall e <- Front(es) :: e in es;
  }

  /** In every run, the files are those told from the events: a file begins with the first
      block, after a file change event and after a roll; every block written is in the last
      file, which is open then; all files before it have been closed, once, with the number
      of their rows. */
  lemma {:induction false} History(f: Form, es: seq<Event>)
    requires AllValid(f, es)
    ensures After(f, es).prior == LastSaid(es)
    ensures RecordedAs(f, After(f, es).w, Chapters(f, es), Open(f, es), Due(f, es))
    decreases |es|
  {
    if es == [] {
      assert [] == Library(f, [], false);
    } else {
      hide Written, Sound, RecordedAs, AllValid;
      FrontValid(f, es);
      History(f, Front(es));
      var s, e, chs := After(f, Front(es)), Last(es), Chapters(f, Front(es));
      var t := Switched(f, s, e);
      assert After(f, es) == Step(f, s, e);
      if Changed(f, s.prior, e) {
        CloseRecorded(f, s.w, chs, Open(f, Front(es)), Due(f, Front(es)));
        if Writes(f, e) {
          WriteRecorded(f, t.w, chs, false, true, e.block, e.rolls);
        }
      } else if Writes(f, e) {
        WriteRecorded(f, t.w, chs, Open(f, Front(es)), Due(f, Front(es)), e.block, e.rolls);
      }
    }
  }

  /** After the final close every file has been closed exactly once. */
  lemma AfterExit(f: Form, es: seq<Event>)
    requires AllValid(f, es)
    ensures AllChaptersValid(f, Chapters(f, es))
    ensures Exit(After(f, es).w).disk.files == Library(f, Chapters(f, es), false)
    ensures !Exit(After(f, es).w).fileOpen
  {
    History(f, es);
    CloseRecorded(f, After(f, es).w, Chapters(f, es), Open(f, es), Due(f, es));
  }

  // ---- what that means ---------------------------------------------------------------------------

  function WrittenBlocks(f: Form, es: seq<Event>): seq<OutBlock> {
    if es == [] then []
    else WrittenBlocks(f, Front(es)) + if Writes(f, Last(es)) then [Last(es).block] else []
  }

  function Flat<T>(ss: seq<seq<T>>): seq<T> {
    if ss == [] then [] else Flat(Front(ss)) + Last(ss)
  }

  lemma FlatNext<T>(ss: seq<seq<T>>, s: seq<T>)
    ensures Flat(ss + [s]) == Flat(ss) + s
  {
    assert Front(ss + [s]) == ss;
  }

  /** Every block written is in exactly one file, in order. */
  lemma {:induction false} ChaptersHoldAll(f: Form, es: seq<Event>)
    ensures Flat(Chapters(f, es)) == WrittenBlocks(f, es)
    decreases |es|
  {
    if es != [] {
      ChaptersHoldAll(f, Front(es));
      var chs, b := Chapters(f, Front(es)), Last(es).block;
      if Writes(f, Last(es)) {
        FlatNext(chs, [b]);
        if chs != [] {
          FlatNext(Front(chs), Last(chs) + [b]);
          FlatNext(Front(chs), Last(chs));
          assert Flat(Front(chs)) + (Last(chs) + [b]) == Flat(chs) + [b];
        }
      }
    }
  }

  // ---- which blocks are written, and when something has changed --------------------------------

  /** A block is to be written: in test mode always, at Arecibo with a receiver in focus or
      run_always, at Green Bank with run_always and the instrument enabled, at FAST with
      run_always. */
  predicate ToBeWritten(site: Observatory, o: Obs) {
    || o.testMode
    || (site.AoSite? && (o.receiver != 0 || o.runAlways != 0))
    || (site.GbtSite? && o.runAlways != 0 && o.webCntrl != 0)
    || (site.FastSite? && o.runAlways != 0)
  }

  /** `at` are the turns whose blocks are to be written, in order. */
  ghost predicate TurnsToWrite(site: Observatory, es: seq<Event>, at: seq<nat>) {
    && (forall i, j :: 0 <= i < j < |at| ==> at[i] < at[j])
    && (forall i: nat :: i in at <==> i < |es| && ToBeWritten(site, es[i].obs))
  }

  function BlocksAt(es: seq<Event>, at: seq<nat>): (bs: seq<OutBlock>)
    requires forall i <- at :: i < |es|
    ensures |bs| == |at|
  {
    seq(|at|, j requires 0 <= j < |at| => (assert at[j] in at; es[at[j]].block))
  }

  lemma {:induction false} WrittenExactly(f: Form, es: seq<Event>) returns (at: seq<nat>)
    ensures TurnsToWrite(f.site, es, at) && WrittenBlocks(f, es) == BlocksAt(es, at)
    decreases |es|
  {
    if es == [] {
      at := [];
    } else {
      var n := |es| - 1;
      var front := WrittenExactly(f, Front(es));
      at := front + if ToBeWritten(f.site, es[n].obs) then [n] else [];
      forall i: nat ensures i in at <==> i < |es| && ToBeWritten(f.site, es[i].obs) {
        assert i in front <==> i < n && ToBeWritten(f.site, Front(es)[i].obs);
        assert i < n ==> Front(es)[i] == es[i];
      }
      forall i, j | 0 <= i < j < |at| ensures at[i] < at[j] {
        assert front[i] in front;
      }
      forall j | 0 <= j < |front| ensures BlocksAt(Front(es), front)[j] == BlocksAt(es, at)[j] {
        assert front[j] in front && at[j] in at;
      }
      var last := if ToBeWritten(f.site, es[n].obs) then [es[n].block] else [];
      assert BlocksAt(es, at) == WrittenBlocks(f, Front(es)) + last;
    }
  }

  /** Something has changed with a block outside test mode exactly if receiver, run_always or
      number of channels is not that of the last block outside test mode before it, or not 0
      if there was none; or if, at Green Bank, the instrument is disabled. */
  lemma {:induction false} ChangeMeans(f: Form, es: seq<Event>, i: int)
    requires es != [] && -1 <= i < |es| - 1
    requires i >= 0 ==> !es[i].obs.testMode
    requires forall j :: i < j < |es| - 1 ==> es[j].obs.testMode
    ensures var e := es[|es| - 1];
            var o, channels := e.obs, e.block.numChan;
            ChangedNow(f, es) <==>
            && !o.testMode
            && (|| (f.site.GbtSite? && o.webCntrl == 0)
                || (if i < 0 then o.receiver != 0 || o.runAlways != 0 || channels != 0
                    else || o.receiver != es[i].obs.receiver || o.runAlways != es[i].obs.runAlways
                         || channels != es[i].block.numChan))
  {
    LastSaidIs(Front(es), i);
  }

  lemma {:induction false} LastSaidIs(es: seq<Event>, i: int)
    requires -1 <= i < |es|
    requires i >= 0 ==> !es[i].obs.testMode
    requires forall j :: i < j < |es| ==> es[j].obs.testMode
    ensures LastSaid(es) == if i < 0 then Prior(0, 0, 0)
                            else Prior(es[i].obs.receiver, es[i].obs.runAlways, es[i].block.numChan)
    decreases |es|
  {
    if es != [] && i < |es| - 1 {
      LastSaidIs(Front(es), i);
    }
  }

  function TablesOfFiles(files: seq<File>): seq<seq<Table>> {
    seq(|files|, c requires 0 <= c < |files| => files[c].tables)
  }

  lemma {:induction false} AllTablesAdd(f: Form, s: seq<OutBlock>, t: seq<OutBlock>)
    requires AllBlocksValid(f, s) && AllBlocksValid(f, t)
    ensures AllBlocksValid(f, s + t)
    ensures AllTables(f, s + t) == AllTables(f, s) + AllTables(f, t)
    decreases |t|
  {
    hide TablesOf, Tables, ValidBlock, ValidForm;
    if t == [] {
      assert s + t == s;
    } else {
      AllTablesAdd(f, s, Front(t));
      assert s + t == (s + Front(t)) + [Last(t)];
      assert Front(s + t) == s + Front(t);
    }
  }

  lemma {:induction false} LibraryFlat(f: Form, chs: seq<seq<OutBlock>>)
    requires AllChaptersValid(f, chs)
    ensures AllBlocksValid(f, Flat(chs))
    ensures Flat(TablesOfFiles(Library(f, chs, false))) == AllTables(f, Flat(chs))
    decreases |chs|
  {
    hide AllBlocksValid, AllTables;
    if chs == [] {
      NoBlocks(f);
    } else {
      LibraryFlat(f, Front(chs));
      AllTablesAdd(f, Flat(Front(chs)), Last(chs));
      assert Front(TablesOfFiles(Library(f, chs, false))) == TablesOfFiles(Library(f, Front(chs), false));
    }
  }

  lemma NoBlocks(f: Form)
    requires ValidForm(f)
    ensures AllBlocksValid(f, []) && AllTables(f, []) == []
  {
  }

  /** The tables of all files, one file after the other, are the tables of the blocks
      written, in order: none missing, none twice, none overwritten. */
  lemma TablesInOrder(f: Form, es: seq<Event>)
    requires AllValid(f, es)
    ensures AllBlocksValid(f, WrittenBlocks(f, es))
    ensures Flat(TablesOfFiles(Exit(After(f, es).w).disk.files)) == AllTables(f, WrittenBlocks(f, es))
  {
    hide After, Exit, AllTables, Flat, WrittenBlocks, TablesOfFiles, Chapters, Library, AllBlocksValid;
    AfterExit(f, es);
    LibraryFlat(f, Chapters(f, es));
    ChaptersHoldAll(f, es);
  }

  /** The hit tables on disk after the final close are, over all files, those of the blocks
      that were to be written, in order. */
  lemma FilesHold(f: Form, es: seq<Event>) returns (at: seq<nat>)
    requires AllValid(f, es)
    ensures TurnsToWrite(f.site, es, at) && AllBlocksValid(f, BlocksAt(es, at))
    ensures Flat(TablesOfFiles(Exit(After(f, es).w).disk.files)) == AllTables(f, BlocksAt(es, at))
  {
    hide After, Exit, AllTables, Flat, TablesOfFiles;
    at := WrittenExactly(f, es);
    TablesInOrder(f, es);
  }

  /** Files are made exactly if some block is to be written: none by a run at Green Bank with
      the instrument disabled, unless in test mode. */
  lemma NoFiles(f: Form, es: seq<Event>)
    requires AllValid(f, es)
    ensures Exit(After(f, es).w).disk.files == [] <==> forall e <- es :: !ToBeWritten(f.site, e.obs)
    ensures f.site.GbtSite? && (forall e <- es :: !e.obs.testMode && e.obs.webCntrl == 0) ==>
              Exit(After(f, es).w).disk.files == []
  {
    hide After, Exit, ToBeWritten, Chapters, WrittenBlocks;
    AfterExit(f, es);
    ChaptersHoldAll(f, es);
    FlatEmpty(Chapters(f, es));
    var at := WrittenExactly(f, es);
    assert at == [] <==> forall e <- es :: !ToBeWritten(f.site, e.obs) by {
      if at == [] {
        forall e <- es ensures !ToBeWritten(f.site, e.obs) {
          var i: nat :| i < |es| && es[i] == e;
          assert i !in at;
        }
      } else {
        assert at[0] in at && es[at[0]] in es;
      }
    }
    forall e <- es ensures f.site.GbtSite? && !e.obs.testMode && e.obs.webCntrl == 0 ==> !ToBeWritten(f.site, e.obs) {
      DisabledAtGbt(e.obs);
    }
  }

  lemma DisabledAtGbt(o: Obs)
    ensures !o.testMode && o.webCntrl == 0 ==> !ToBeWritten(GbtSite, o)
  {
  }

  lemma {:induction false} FlatEmpty<T>(ss: seq<seq<T>>)
    requires forall s <- ss :: s != []
    ensures Flat(ss) == [] <==> ss == []
  {
    if ss != [] {
      assert Last(ss) in ss;
    }
  }

  /** Blocks that were written and filled their file. */
  function Rolls(site: Observatory, es: seq<Event>): nat {
    if es == [] then 0
    else Rolls(site, Front(es)) + if ToBeWritten(site, Last(es).obs) && Last(es).rolls then 1 else 0
  }

  /** The file number goes up by one with each of them, and only then. */
  lemma {:induction false} FileNumbers(f: Form, es: seq<Event>)
    requires AllValid(f, es)
    ensures After(f, es).w.fileNum == 1 + Rolls(f.site, es)
    decreases |es|
  {
    if es != [] {
      FrontValid(f, es);
      FileNumbers(f, Front(es));
      var s, e := After(f, Front(es)), Last(es);
      var t := Switched(f, s, e);
      hide After, AllValid;
      assert After(f, es) == Step(f, s, e) by { AfterNext(f, es); }
      if Writes(f, e) {
        WrittenNumber(t.w, f, e.block, e.rolls);
      }
    }
  }

  lemma AfterNext(f: Form, es: seq<Event>)
    requires AllValid(f, es) && es != [] && AllValid(f, Front(es))
    requires ValidForm(f) && ValidBlock(f, Last(es).block)
    ensures After(f, es) == Step(f, After(f, Front(es)), Last(es))
  {
  }

  lemma WrittenNumber(w: Writer, f: Form, b: OutBlock, rolls: bool)
    requires ValidForm(f) && ValidBlock(f, b) && Sound(w)
    ensures Written(w, f, b, rolls).fileNum == w.fileNum + if rolls then 1 else 0
  {
    hide TablesOf, Tables, RowTotal, ValidBlock, ValidForm, PutTables;
    PutTablesFrame(Ready(w), f, b, Tables(f));
  }

  /** A file of k integrations has k tables for each beam or sub-spectrum and polarisation. */
  lemma {:induction false} TableCount(f: Form, bs: seq<OutBlock>)
    requires AllBlocksValid(f, bs)
    ensures |AllTables(f, bs)| == |bs| * Tables(f)
    decreases |bs|
  {
    hide TablesOf, Tables;
    if bs != [] {
      TableCount(f, Front(bs));
      assert |bs| * Tables(f) == (|bs| - 1) * Tables(f) + Tables(f);
    }
  }

  predicate ChangedAt(f: Form, es: seq<Event>, j: nat)
    requires j < |es|
  {
    ChangedNow(f, es[..j + 1])
  }

  /** The i-th event does not make the next block written join its file. */
  ghost predicate Parted(f: Form, es: seq<Event>, i: nat)
    requires i < |es|
  {
    || es[i].rolls
    || exists j: nat :: i < j < |es| && (Writes(f, es[j]) || ChangedAt(f, es, j))
  }

  lemma PartedNext(f: Form, es: seq<Event>, i: nat)
    requires i < |es| - 1
    ensures Parted(f, es, i) <==> Parted(f, Front(es), i) || Writes(f, Last(es)) || ChangedNow(f, es)
  {
    hide Writes, ChangedNow;
    var front := Front(es);
    assert es[..|es|] == es;
    forall j: nat | i < j < |es| - 1
      ensures front[j] == es[j] && (ChangedAt(f, front, j) <==> ChangedAt(f, es, j))
    {
      assert front[..j + 1] == es[..j + 1];
    }
    if Writes(f, Last(es)) || ChangedNow(f, es) {
      assert Writes(f, es[|es| - 1]) || ChangedAt(f, es, |es| - 1);
    }
    if Parted(f, front, i) && !es[i].rolls {
      var j: nat :| i < j < |front| && (Writes(f, front[j]) || ChangedAt(f, front, j));
      assert Writes(f, es[j]) || ChangedAt(f, es, j);
    }
  }

  /** The next block written begins a file exactly if none has been written, or the last
      one rolled the file over, or something changed after it. */
  lemma {:induction false} DueMeans(f: Form, es: seq<Event>)
    ensures Due(f, es) <==> forall i: nat :: i < |es| && Writes(f, es[i]) ==> Parted(f, es, i)
    decreases |es|
  {
    hide Writes, ChangedNow, Parted;
    if es != [] {
      var n, front := |es| - 1, Front(es);
      DueMeans(f, front);
      forall i: nat | i < n
        ensures front[i] == es[i]
        ensures Parted(f, es, i) <==> Parted(f, front, i) || Writes(f, es[n]) || ChangedNow(f, es)
      {
        PartedNext(f, es, i);
      }
      assert Parted(f, es, n) <==> es[n].rolls by { PartedLast(f, es); }
    }
  }

  lemma PartedLast(f: Form, es: seq<Event>)
    requires es != []
    ensures Parted(f, es, |es| - 1) <==> Last(es).rolls
  {
  }
}
