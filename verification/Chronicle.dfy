/** The assembler's variables told from how the packets of a run were classed: when strays
    make it reset, whose channels and time a block carries, what its counters count. */
module Chronicle {
  import opened Arith
  import opened Placement
  import opened Assembler
  import opened Jitter

  /** The assembler after the first `k` packets. */
  ghost function At(c: Config, s: State, run: seq<Arrival>, k: nat): State
    requires ValidConfig(c) && Shaped(c, s) && AllNominal(c, run) && k <= |run|
  {
    FrontNominal(c, run, k);
    Run(c, s, run[..k])
  }

  /** The k-th packet makes it reset. */
  ghost predicate ResetAt(c: Config, s: State, run: seq<Arrival>, k: nat)
    requires ValidConfig(c) && Shaped(c, s) && AllNominal(c, run) && k < |run|
  {
    Resets(c, At(c, s, run, k), run[k].p.mcnt)
  }

  ghost predicate AcceptedAt(c: Config, s: State, run: seq<Arrival>, k: nat)
    requires ValidConfig(c) && Shaped(c, s) && AllNominal(c, run) && k < |run|
  {
    Accepted(VerdictAt(c, s, run, k))
  }

  lemma AtNext(c: Config, s: State, run: seq<Arrival>, k: nat)
    requires ValidConfig(c) && Shaped(c, s) && AllNominal(c, run) && k < |run|
    ensures Shaped(c, At(c, s, run, k)) && Nominal(c, run[k])
    ensures At(c, s, run, k + 1) == Step(c, At(c, s, run, k), run[k])
    ensures VerdictAt(c, s, run, k) == Classify(c, At(c, s, run, k), run[k].p.mcnt)
  {
    RunNext(c, s, run, k);
  }

  lemma AtStart(c: Config, s: State, run: seq<Arrival>)
    requires ValidConfig(c) && Shaped(c, s) && AllNominal(c, run)
    ensures At(c, s, run, 0) == s
  {
    assert run[..0] == [];
  }

  lemma {:induction false} AtInv(c: Config, s: State, run: seq<Arrival>, k: nat)
    requires ValidConfig(c) && Inv(c, s) && AllNominal(c, run) && k <= |run|
    ensures Inv(c, At(c, s, run, k))
  {
    hide Inv, Step, At, Shaped, Nominal;
    AtShaped(c, s, run);
    if k == 0 {
      AtStart(c, s, run);
    } else {
      AtInv(c, s, run, k - 1);
      AtNext(c, s, run, k - 1);
      StepInv(c, At(c, s, run, k - 1), run[k - 1]);
    }
  }

  lemma AtShaped(c: Config, s: State, run: seq<Arrival>)
    requires ValidConfig(c) && Inv(c, s)
    ensures Shaped(c, s)
  {
  }

  // ---- strays and resets ---------------------------------------------------------------------

  /** From packet `i` on, up to `k`, no packet is accepted, and the one before `i` is. */
  ghost predicate Streak(c: Config, s: State, run: seq<Arrival>, i: nat, k: nat)
    requires ValidConfig(c) && Shaped(c, s) && AllNominal(c, run) && k <= |run|
  {
    && i <= k && (i > 0 ==> AcceptedAt(c, s, run, i - 1))
    && forall j :: i <= j < k ==> !AcceptedAt(c, s, run, j)
  }

  ghost function Strays(c: Config, s: State, run: seq<Arrival>, i: nat, k: nat): set<nat>
    requires ValidConfig(c) && Shaped(c, s) && AllNominal(c, run) && k <= |run|
  {
    set j: nat | i <= j < k && VerdictAt(c, s, run, j).OutOfSequence?
  }

  /** What the three kinds of packets do to the count. */
  lemma StepCount(c: Config, s: State, a: Arrival)
    requires ValidConfig(c) && Shaped(c, s) && Nominal(c, a)
    ensures var t, v := Step(c, s, a), Classify(c, s, a.p.mcnt);
            && (Accepted(v) ==> t.outOfSeq == 0)
            && (v.LatePacket? ==> t == s)
            && (v.OutOfSequence? ==> t.outOfSeq == s.outOfSeq + 1)
            && (v.OutOfSequence? && !Resets(c, s, a.p.mcnt) ==> t == s.(outOfSeq := s.outOfSeq + 1))
  {
  }

  /** The count is that of the packets out of sequence since the last accepted one: late
      packets and resets do not interrupt it. */
  lemma {:induction false} StraysCounted(c: Config, blank: State, run: seq<Arrival>, i: nat, k: nat)
    requires ValidConfig(c) && IsBlank(c, blank) && AllNominal(c, run) && k <= |run|
    requires Streak(c, Start(c, blank), run, i, k)
    ensures At(c, Start(c, blank), run, k).outOfSeq == |Strays(c, Start(c, blank), run, i, k)|
    decreases k
  {
    hide Step, Classify, At, Start;
    var s := Start(c, blank);
    if k > 0 {
      AtNext(c, s, run, k - 1);
      StepCount(c, At(c, s, run, k - 1), run[k - 1]);
    }
    if i == k {
      assert Strays(c, s, run, i, k) == {};
      if k == 0 {
        AtStart(c, s, run);
        assert s.outOfSeq == 0 by { StartZero(c, blank); }
      }
    } else {
      assert !AcceptedAt(c, s, run, k - 1);
      StraysCounted(c, blank, run, i, k - 1);
      var before := Strays(c, s, run, i, k - 1);
      assert Strays(c, s, run, i, k) ==
             if VerdictAt(c, s, run, k - 1).OutOfSequence? then before + {k - 1} else before;
    }
  }

  /** Every packet has such a streak before it. */
  lemma {:induction false} StreakBefore(c: Config, s: State, run: seq<Arrival>, k: nat) returns (i: nat)
    requires ValidConfig(c) && Shaped(c, s) && AllNominal(c, run) && k <= |run|
    ensures Streak(c, s, run, i, k)
  {
    hide AcceptedAt;
    if k == 0 {
      i := 0;
    } else if AcceptedAt(c, s, run, k - 1) {
      i := k;
    } else {
      i := StreakBefore(c, s, run, k - 1);
    }
  }

  /** When packets make the thread reset: out of sequence, and behind 2 * nBors others that
      are, with none accepted in between. Fewer of them change nothing but the count. */
  lemma ResetsWhen(c: Config, blank: State, run: seq<Arrival>, i: nat, k: nat)
    requires ValidConfig(c) && IsBlank(c, blank) && AllNominal(c, run) && k < |run|
    requires Streak(c, Start(c, blank), run, i, k)
    ensures var s := Start(c, blank);
            var strays := |Strays(c, s, run, i, k)|;
            && (ResetAt(c, s, run, k) <==> VerdictAt(c, s, run, k).OutOfSequence? && strays >= 2 * c.nBors)
            && (VerdictAt(c, s, run, k).OutOfSequence? && strays < 2 * c.nBors ==>
                  At(c, s, run, k + 1) == At(c, s, run, k).(outOfSeq := strays + 1))
  {
    hide Step, Classify, At, Start, Strays;
    var s := Start(c, blank);
    StraysCounted(c, blank, run, i, k);
    AtNext(c, s, run, k);
    StepCount(c, At(c, s, run, k), run[k]);
  }

  // ---- whose channels and time a block carries --------------------------------------------------

  /** Which packet opened a block, -1 for the two of start-up, and which filled it. */
  datatype Part = Part(opener: int, closer: nat)

  /** Openers of the two held blocks, and the blocks filled. */
  datatype Tale = Tale(cur: int, next: int, done: seq<Part>)

  ghost function TaleOf(c: Config, s: State, run: seq<Arrival>, k: nat): Tale
    requires ValidConfig(c) && Shaped(c, s) && AllNominal(c, run) && k <= |run|
  {
    if k == 0 then Tale(-1, -1, [])
    else
      var t := TaleOf(c, s, run, k - 1);
      if VerdictAt(c, s, run, k - 1).Closing? then Tale(t.next, k - 1, t.done + [Part(t.cur, k - 1)])
      else if ResetAt(c, s, run, k - 1) then Tale(k - 1, k - 1, t.done)
      else t
  }

  /** Where the opener of the j-th block is looked for: at the packet that filled the last
      block but one before it. */
  ghost function Base(t: Tale, j: nat): int
    requires j < |t.done| + 2
  {
    if j < 2 then -1 else t.done[j - 2].closer
  }

  /** The opener of the j-th block, held at packet `k`: that packet, or the last after it that
      made the thread reset. */
  ghost predicate Opens(c: Config, s: State, run: seq<Arrival>, t: Tale, j: nat, o: int, k: nat)
    requires ValidConfig(c) && Shaped(c, s) && AllNominal(c, run) && k <= |run| && j < |t.done| + 2
  {
    && Base(t, j) <= o < k
    && (o == Base(t, j) || (0 <= o && ResetAt(c, s, run, o)))
    && forall i :: o < i < k && 0 <= i ==> !ResetAt(c, s, run, i)
  }

  /** Blocks are filled by the closing packets, one after the other. */
  ghost predicate Closers(c: Config, s: State, run: seq<Arrival>, t: Tale, k: nat)
    requires ValidConfig(c) && Shaped(c, s) && AllNominal(c, run) && k <= |run|
  {
    && (forall i, j :: 0 <= i < j < |t.done| ==> t.done[i].closer < t.done[j].closer)
    && (forall j :: 0 <= j < |t.done| ==> t.done[j].closer < k && VerdictAt(c, s, run, t.done[j].closer).Closing?)
    && (forall i: nat :: i < k && VerdictAt(c, s, run, i).Closing? ==>
          exists j :: 0 <= j < |t.done| && t.done[j].closer == i)
  }

  lemma {:induction false} TaleMeans(c: Config, s: State, run: seq<Arrival>, k: nat)
    requires ValidConfig(c) && Shaped(c, s) && AllNominal(c, run) && k <= |run|
    ensures Told(c, s, run, TaleOf(c, s, run, k), k)
  {
    hide VerdictAt, ResetAt, At, Told, Shaped;
    if k == 0 {
      NothingTold(c, s, run);
    } else {
      TaleMeans(c, s, run, k - 1);
      NotBoth(c, s, run, k - 1);
      var t := TaleOf(c, s, run, k - 1);
      if VerdictAt(c, s, run, k - 1).Closing? {
        ClosingTold(c, s, run, t, k - 1);
      } else {
        OtherTold(c, s, run, t, k - 1);
      }
    }
  }

  ghost predicate Told(c: Config, s: State, run: seq<Arrival>, t: Tale, k: nat)
    requires ValidConfig(c) && Shaped(c, s) && AllNominal(c, run) && k <= |run|
  {
    && Closers(c, s, run, t, k)
    && (forall j :: 0 <= j < |t.done| ==> Opens(c, s, run, t, j, t.done[j].opener, t.done[j].closer))
    && Opens(c, s, run, t, |t.done|, t.cur, k) && Opens(c, s, run, t, |t.done| + 1, t.next, k)
  }

  lemma NothingTold(c: Config, s: State, run: seq<Arrival>)
    requires ValidConfig(c) && Shaped(c, s) && AllNominal(c, run)
    ensures Told(c, s, run, Tale(-1, -1, []), 0)
  {
  }

  lemma ClosersNext(c: Config, s: State, run: seq<Arrival>, t: Tale, k: nat, r: Tale)
    requires ValidConfig(c) && Shaped(c, s) && AllNominal(c, run) && k < |run| && Closers(c, s, run, t, k)
    requires if VerdictAt(c, s, run, k).Closing? then |r.done| == |t.done| + 1 && r.done[|t.done|].closer == k
             else |r.done| == |t.done|
    requires forall j :: 0 <= j < |t.done| ==> r.done[j] == t.done[j]
    ensures Closers(c, s, run, r, k + 1)
  {
    hide VerdictAt, Shaped;
    forall i: nat | i < k + 1 && VerdictAt(c, s, run, i).Closing?
      ensures exists j :: 0 <= j < |r.done| && r.done[j].closer == i
    {
      if i < k {
        var j :| 0 <= j < |t.done| && t.done[j].closer == i;
        assert r.done[j].closer == i;
      }
    }
  }

  /** The blocks told of so far, told of again with more. */
  lemma OpensStill(c: Config, s: State, run: seq<Arrival>, t: Tale, r: Tale, j: nat, o: int, k: nat)
    requires ValidConfig(c) && Shaped(c, s) && AllNominal(c, run) && k <= |run|
    requires |t.done| <= |r.done| && forall i :: 0 <= i < |t.done| ==> r.done[i] == t.done[i]
    requires j < |t.done| + 2 && Opens(c, s, run, t, j, o, k)
    ensures Opens(c, s, run, r, j, o, k)
    ensures k < |run| && !ResetAt(c, s, run, k) ==> Opens(c, s, run, r, j, o, k + 1)
  {
    hide ResetAt, Shaped;
  }

  lemma ClosingTold(c: Config, s: State, run: seq<Arrival>, t: Tale, k: nat)
    requires ValidConfig(c) && Shaped(c, s) && AllNominal(c, run) && k < |run| && Told(c, s, run, t, k)
    requires VerdictAt(c, s, run, k).Closing? && !ResetAt(c, s, run, k)
    ensures Told(c, s, run, Tale(t.next, k, t.done + [Part(t.cur, k)]), k + 1)
  {
    var n, r := |t.done|, Tale(t.next, k, t.done + [Part(t.cur, k)]);
    ClosersNext(c, s, run, t, k, r);
    OpensStill(c, s, run, t, r, n, t.cur, k);
    OpensStill(c, s, run, t, r, n + 1, t.next, k);
    assert Opens(c, s, run, r, n + 2, k, k + 1);
    hide VerdictAt, ResetAt, Shaped, Closers, Opens;
    forall j | 0 <= j < n + 1 ensures Opens(c, s, run, r, j, r.done[j].opener, r.done[j].closer) {
      if j < n {
        assert r.done[j] == t.done[j];
        ClosersBelow(c, s, run, t, k, j);
        OpensStill(c, s, run, t, r, j, t.done[j].opener, t.done[j].closer);
      }
    }
  }

  lemma ClosersBelow(c: Config, s: State, run: seq<Arrival>, t: Tale, k: nat, j: nat)
    requires ValidConfig(c) && Shaped(c, s) && AllNominal(c, run) && k <= |run| && Closers(c, s, run, t, k)
    requires j < |t.done|
    ensures t.done[j].closer < k
  {
  }

  /** A packet that makes the thread reset opens both held blocks anew. */
  lemma OpensAgain(c: Config, s: State, run: seq<Arrival>, t: Tale, k: nat, j: nat)
    requires ValidConfig(c) && Shaped(c, s) && AllNominal(c, run) && k < |run| && ResetAt(c, s, run, k)
    requires |t.done| <= j < |t.done| + 2 && Closers(c, s, run, t, k + 1)
    ensures Opens(c, s, run, t, j, k, k + 1)
  {
    hide ResetAt, Shaped, VerdictAt;
  }

  lemma OtherTold(c: Config, s: State, run: seq<Arrival>, t: Tale, k: nat)
    requires ValidConfig(c) && Shaped(c, s) && AllNominal(c, run) && k < |run| && Told(c, s, run, t, k)
    requires !VerdictAt(c, s, run, k).Closing?
    ensures Told(c, s, run, if ResetAt(c, s, run, k) then Tale(k, k, t.done) else t, k + 1)
  {
    var n, r := |t.done|, if ResetAt(c, s, run, k) then Tale(k, k, t.done) else t;
    hide VerdictAt, ResetAt, Shaped, Closers, Opens;
    ClosersNext(c, s, run, t, k, r);
    OpensStill(c, s, run, t, r, n, t.cur, k);
    OpensStill(c, s, run, t, r, n + 1, t.next, k);
    if ResetAt(c, s, run, k) {
      OpensAgain(c, s, run, r, k, n);
      OpensAgain(c, s, run, r, k, n + 1);
    }
    forall j | 0 <= j < n ensures Opens(c, s, run, r, j, r.done[j].opener, r.done[j].closer) {
      ClosersBelow(c, s, run, t, k, j);
      OpensStill(c, s, run, t, r, j, t.done[j].opener, t.done[j].closer);
    }
  }

  lemma NotBoth(c: Config, s: State, run: seq<Arrival>, k: nat)
    requires ValidConfig(c) && Shaped(c, s) && AllNominal(c, run) && k < |run|
    ensures VerdictAt(c, s, run, k).Closing? ==> !ResetAt(c, s, run, k)
  {
    AtNext(c, s, run, k);
  }

  /** A header has the channel fields and the source of the packet that opened its block. */
  predicate Labelled(h: Header, run: seq<Arrival>, o: int)
    requires -1 <= o < |run|
  {
    if o < 0 then h.chanId == h.numChan == h.sid == 0
    else h.chanId == run[o].p.pchan && h.numChan == run[o].p.nchan && h.sid == run[o].p.sid
  }

  predicate SameLabel(h: Header, g: Header) {
    h.chanId == g.chanId && h.numChan == g.numChan && h.sid == g.sid
  }

  predicate LabelOf(h: Header, p: Packet) {
    h.chanId == p.pchan && h.numChan == p.nchan && h.sid == p.sid
  }

  lemma CurrentLabels(c: Config, s: State, p: Packet)
    requires ValidConfig(c) && Shaped(c, s) && |p.payload| == PayloadWords(c.layout)
    ensures var t := Store(c, s, p);
            && t.blockI == s.blockI && t.released == s.released
            && forall i :: 0 <= i < c.nBlocks ==> SameLabel(t.headers[i], s.headers[i])
  {
  }

  lemma ClosingLabels(c: Config, s: State, a: Arrival)
    requires ValidConfig(c) && Inv(c, s) && Nominal(c, a) && Classify(c, s, a.p.mcnt).Closing?
    ensures var t, n := Step(c, s, a), |s.released|;
            && Shaped(c, t) && t.blockI == NextSlot(c, s)
            && |t.released| == n + 1 && t.released[..n] == s.released
            && SameLabel(t.released[n].header, s.headers[s.blockI])
            && t.released[n].header.sec == a.sec && t.released[n].header.nsec == a.nsec
            && SameLabel(t.headers[t.blockI], s.headers[NextSlot(c, s)])
            && LabelOf(t.headers[NextSlot(c, t)], a.p)
  {
    hide BlockStart, BlockFor;
    Distances(c, s, a.p.mcnt);
    HeldDistinct(c, s);
    var r := Release(c, s, a.sec, a.nsec);
    ReleaseClosed(c, s, a.sec, a.nsec, a.p.mcnt);
    AcquireInv(c, r, a.p);
    HeldDistinct(c, r);
    CurrentLabels(c, Acquire(c, r, a.p), a.p);
  }

  lemma ResetLabels(c: Config, s: State, a: Arrival)
    requires ValidConfig(c) && Inv(c, s) && Nominal(c, a) && Resets(c, s, a.p.mcnt)
    ensures var t := Step(c, s, a);
            && Shaped(c, t) && t.released == s.released && t.blockI == s.blockI
            && LabelOf(t.headers[t.blockI], a.p) && LabelOf(t.headers[NextSlot(c, t)], a.p)
            && t.mcntLogLate == t.mcntStart + c.nm
  {
    var u := Bumped(s);
    BumpedInv(c, s);
    var start := BlockStart(c, ResetTarget(c, u, a.p.mcnt));
    ResetStart(c, u, a.p.mcnt);
    RestartLabels(c, u, start, a.p);
  }

  lemma RestartLabels(c: Config, s: State, start: nat, p: Packet)
    requires ValidConfig(c) && Shaped(c, s)
    requires start % c.nm == 0 && start < TWO56 + c.nBlocks * c.nm && BlockFor(c, start) == s.blockI
    ensures var t := Restarted(c, s, start, p);
            && t.released == s.released && t.blockI == s.blockI
            && LabelOf(t.headers[t.blockI], p) && LabelOf(t.headers[NextSlot(c, t)], p)
            && t.mcntLogLate == t.mcntStart + c.nm
  {
    RingSpan(c);
    BlockAfter(c, start);
    HeldDistinct(c, s);
  }

  /** In every run from start-up, with any number of resets, the held blocks carry channels
      and source of the packets that opened them, and each block filled those of its opener
      and the time at which the packet that filled it came. */
  lemma {:induction false} HeadersTold(c: Config, blank: State, run: seq<Arrival>, k: nat)
    requires ValidConfig(c) && IsBlank(c, blank) && AllNominal(c, run) && k <= |run|
    ensures var u, t := At(c, Start(c, blank), run, k), TaleOf(c, Start(c, blank), run, k);
            && Inv(c, u) && Shaped(c, u) && |u.released| == |t.done|
            && -1 <= t.cur < |run| && -1 <= t.next < |run|
            && Labelled(u.headers[u.blockI], run, t.cur) && Labelled(u.headers[NextSlot(c, u)], run, t.next)
            && forall j :: 0 <= j < |t.done| ==>
                 FilledBy(run, u.released[j].header, t.done[j])
  {
    hide Step, Classify, At, Start, Inv, Shaped, NextSlot, Labelled;
    var s := Start(c, blank);
    assert Inv(c, s) by { StartInv(c, blank); }
    assert Shaped(c, s);
    AtInv(c, s, run, k);
    if k == 0 {
      AtStart(c, s, run);
      StartLabels(c, blank, run);
    } else {
      HeadersTold(c, blank, run, k - 1);
      var b, t := At(c, s, run, k - 1), TaleOf(c, s, run, k - 1);
      AtNext(c, s, run, k - 1);
      StepTold(c, b, run, t, k - 1);
    }
  }

  predicate FilledBy(run: seq<Arrival>, h: Header, part: Part) {
    && -1 <= part.opener < |run| && part.closer < |run|
    && Labelled(h, run, part.opener) && h.sec == run[part.closer].sec && h.nsec == run[part.closer].nsec
  }

  lemma StartLabels(c: Config, blank: State, run: seq<Arrival>)
    requires ValidConfig(c) && IsBlank(c, blank)
    ensures var s := Start(c, blank);
            && Shaped(c, s) && s.released == []
            && Labelled(s.headers[s.blockI], run, -1) && Labelled(s.headers[NextSlot(c, s)], run, -1)
  {
    BlockAfter(c, 0);
    DivIs(0, 0, c.nm);
    SlotSmall(0, c.nBlocks);
  }

  /** One packet on. */
  lemma StepTold(c: Config, b: State, run: seq<Arrival>, t: Tale, k: nat)
    requires ValidConfig(c) && Inv(c, b) && Shaped(c, b) && k < |run| && Nominal(c, run[k])
    requires |b.released| == |t.done| && -1 <= t.cur < |run| && -1 <= t.next < |run|
    requires Labelled(b.headers[b.blockI], run, t.cur) && Labelled(b.headers[NextSlot(c, b)], run, t.next)
    requires forall j :: 0 <= j < |t.done| ==> FilledBy(run, b.released[j].header, t.done[j])
    ensures var u, v := Step(c, b, run[k]), Classify(c, b, run[k].p.mcnt);
            var r := if v.Closing? then Tale(t.next, k, t.done + [Part(t.cur, k)])
                     else if Resets(c, b, run[k].p.mcnt) then Tale(k, k, t.done) else t;
            && Shaped(c, u) && |u.released| == |r.done|
            && Labelled(u.headers[u.blockI], run, r.cur) && Labelled(u.headers[NextSlot(c, u)], run, r.next)
            && forall j :: 0 <= j < |r.done| ==> FilledBy(run, u.released[j].header, r.done[j])
  {
    var a, v := run[k], Classify(c, b, run[k].p.mcnt);
    var u := Step(c, b, a);
    if v.Closing? {
      ClosingLabels(c, b, a);
      hide Step, Classify, Inv, Shaped, NextSlot;
      forall j | 0 <= j < |t.done| + 1 ensures FilledBy(run, u.released[j].header, (t.done + [Part(t.cur, k)])[j]) {
        assert j < |t.done| ==> u.released[j] == u.released[..|t.done|][j];
      }
    } else if Resets(c, b, a.p.mcnt) {
      ResetLabels(c, b, a);
    } else if v.Current? {
      CurrentLabels(c, b, a.p);
    }
  }

  /** The limit below which the thread keeps quiet about late packets is a block behind where
      it last reset to, or behind start-up. */
  lemma {:induction false} LogLateTold(c: Config, blank: State, run: seq<Arrival>, o: int, k: nat)
    requires ValidConfig(c) && IsBlank(c, blank) && AllNominal(c, run) && -1 <= o < k <= |run|
    requires o >= 0 ==> ResetAt(c, Start(c, blank), run, o)
    requires forall i :: o < i < k && 0 <= i ==> !ResetAt(c, Start(c, blank), run, i)
    ensures At(c, Start(c, blank), run, k).mcntLogLate
         == (if o < 0 then 0 else At(c, Start(c, blank), run, o + 1).mcntStart) + c.nm
    decreases k
  {
    hide Step, Classify, At, Start, Inv, Shaped;
    var s := Start(c, blank);
    assert Inv(c, s) && Shaped(c, s) by { StartZero(c, blank); }
    if k == 0 {
      AtStart(c, s, run);
      assert s.mcntLogLate == c.nm by { StartLogLate(c, blank); }
    } else {
      AtNext(c, s, run, k - 1);
      AtInv(c, s, run, k - 1);
      if k - 1 == o {
        ResetLabels(c, At(c, s, run, o), run[o]);
      } else {
        assert !ResetAt(c, s, run, k - 1);
        KeepsLogLate(c, At(c, s, run, k - 1), run[k - 1]);
        LogLateTold(c, blank, run, o, k - 1);
      }
    }
  }

  lemma StartLogLate(c: Config, blank: State)
    requires ValidConfig(c) && IsBlank(c, blank)
    ensures Start(c, blank).mcntLogLate == c.nm
  {
  }

  lemma KeepsLogLate(c: Config, s: State, a: Arrival)
    requires ValidConfig(c) && Shaped(c, s) && Nominal(c, a) && !Resets(c, s, a.p.mcnt)
    ensures Step(c, s, a).mcntLogLate == s.mcntLogLate
  {
  }

  // ---- what the packet counters count -------------------------------------------------------------

  /** The packets accepted for the block at `start` since packet `o` opened it. */
  ghost function AcceptedFor(c: Config, s: State, run: seq<Arrival>, o: int, k: nat, start: nat): set<nat>
    requires ValidConfig(c) && Shaped(c, s) && AllNominal(c, run) && k <= |run|
  {
    set j: nat | o < j < k && AcceptedAt(c, s, run, j) && BlockStart(c, run[j].p.mcnt) == start
  }

  lemma AcceptedNext(c: Config, s: State, run: seq<Arrival>, o: int, k: nat, start: nat)
    requires ValidConfig(c) && Shaped(c, s) && AllNominal(c, run) && k < |run| && o < k
    ensures |AcceptedFor(c, s, run, o, k + 1, start)| == |AcceptedFor(c, s, run, o, k, start)|
            + if AcceptedAt(c, s, run, k) && BlockStart(c, run[k].p.mcnt) == start then 1 else 0
  {
    hide AcceptedAt, BlockStart;
    var before := AcceptedFor(c, s, run, o, k, start);
    assert AcceptedFor(c, s, run, o, k + 1, start) ==
           if AcceptedAt(c, s, run, k) && BlockStart(c, run[k].p.mcnt) == start then before + {k} else before;
  }

  lemma NoneAccepted(c: Config, s: State, run: seq<Arrival>, k: nat, start: nat)
    requires ValidConfig(c) && Shaped(c, s) && AllNominal(c, run) && k < |run|
    ensures |AcceptedFor(c, s, run, k, k + 1, start)| == 0
  {
    assert AcceptedFor(c, s, run, k, k + 1, start) == {};
  }

  /** What a packet does to the counters of the two held blocks. */
  lemma StepCounters(c: Config, s: State, a: Arrival)
    requires ValidConfig(c) && Inv(c, s) && Shaped(c, s) && Nominal(c, a)
    ensures var t, v, b := Step(c, s, a), Classify(c, s, a.p.mcnt), BlockStart(c, a.p.mcnt);
            && Shaped(c, t)
            && var cur, next := t.counters[t.blockI], t.counters[NextSlot(c, t)];
            if v.Closing? then
              t.mcntStart == b == s.mcntStart + c.nm && cur == s.counters[NextSlot(c, s)] + 1 && next == 0
            else if Resets(c, s, a.p.mcnt) then cur == next == 0
            else
              && t.mcntStart == s.mcntStart
              && cur == s.counters[s.blockI] + (if v.Current? && b == s.mcntStart then 1 else 0)
              && next == s.counters[NextSlot(c, s)] + (if v.Current? && b == s.mcntStart + c.nm then 1 else 0)
              && (v.Current? ==> b == s.mcntStart || b == s.mcntStart + c.nm)
  {
    if Classify(c, s, a.p.mcnt).Closing? {
      ClosingCounters(c, s, a);
    } else if Resets(c, s, a.p.mcnt) {
      ResetCounters(c, s, a);
    } else if Classify(c, s, a.p.mcnt).Current? {
      CurrentCounters(c, s, a);
    }
  }

  lemma CurrentCounters(c: Config, s: State, a: Arrival)
    requires ValidConfig(c) && Inv(c, s) && Shaped(c, s) && Nominal(c, a) && Classify(c, s, a.p.mcnt).Current?
    ensures var t, b := Step(c, s, a), BlockStart(c, a.p.mcnt);
            && Shaped(c, t) && t.mcntStart == s.mcntStart && t.blockI == s.blockI
            && t.counters[t.blockI] == s.counters[s.blockI] + (if b == s.mcntStart then 1 else 0)
            && t.counters[NextSlot(c, t)] == s.counters[NextSlot(c, s)] + (if b == s.mcntStart + c.nm then 1 else 0)
            && (b == s.mcntStart || b == s.mcntStart + c.nm)
  {
    Distances(c, s, a.p.mcnt);
    HeldDistinct(c, s);
    hide BlockStart, BlockFor;
  }

  lemma ResetCounters(c: Config, s: State, a: Arrival)
    requires ValidConfig(c) && Inv(c, s) && Nominal(c, a) && Resets(c, s, a.p.mcnt)
    ensures var t := Step(c, s, a);
            Shaped(c, t) && t.counters[t.blockI] == t.counters[NextSlot(c, t)] == 0
  {
    BumpedInv(c, s);
    ResetStart(c, Bumped(s), a.p.mcnt);
    hide BlockStart, BlockFor;
  }

  lemma ClosingCounters(c: Config, s: State, a: Arrival)
    requires ValidConfig(c) && Inv(c, s) && Nominal(c, a) && Classify(c, s, a.p.mcnt).Closing?
    ensures var t := Step(c, s, a);
            && Shaped(c, t) && t.mcntStart == BlockStart(c, a.p.mcnt) == s.mcntStart + c.nm
            && t.counters[t.blockI] == s.counters[NextSlot(c, s)] + 1 && t.counters[NextSlot(c, t)] == 0
  {
    hide BlockStart, BlockFor;
    Distances(c, s, a.p.mcnt);
    HeldDistinct(c, s);
    var r := Release(c, s, a.sec, a.nsec);
    ReleaseClosed(c, s, a.sec, a.nsec, a.p.mcnt);
    HeldDistinct(c, r);
  }

  /** In every run from start-up, the counters of the held blocks are the numbers of packets
      accepted for them since they were opened, those from bad sources included. */
  lemma {:induction false} CountersTold(c: Config, blank: State, run: seq<Arrival>, k: nat)
    requires ValidConfig(c) && IsBlank(c, blank) && AllNominal(c, run) && k <= |run|
    ensures var s := Start(c, blank);
            var u, t := At(c, s, run, k), TaleOf(c, s, run, k);
            && Shaped(c, u) && -1 <= t.cur < k && -1 <= t.next < k
            && u.counters[u.blockI] == |AcceptedFor(c, s, run, t.cur, k, u.mcntStart)|
            && u.counters[NextSlot(c, u)] == |AcceptedFor(c, s, run, t.next, k, u.mcntStart + c.nm)|
  {
    hide Step, Classify, At, Start, Inv, Shaped, NextSlot, AcceptedFor, BlockStart;
    var s := Start(c, blank);
    assert Inv(c, s) && Shaped(c, s) by { StartZero(c, blank); }
    if k == 0 {
      AtStart(c, s, run);
      StartCounters(c, blank);
      NothingAccepted(c, s, run, s.mcntStart);
      NothingAccepted(c, s, run, s.mcntStart + c.nm);
    } else {
      CountersTold(c, blank, run, k - 1);
      var b, t := At(c, s, run, k - 1), TaleOf(c, s, run, k - 1);
      AtInv(c, s, run, k - 1);
      AtNext(c, s, run, k - 1);
      StepCounters(c, b, run[k - 1]);
      NotBoth(c, s, run, k - 1);
      AcceptedNext(c, s, run, t.cur, k - 1, b.mcntStart);
      AcceptedNext(c, s, run, t.next, k - 1, b.mcntStart + c.nm);
      NoneAccepted(c, s, run, k - 1, At(c, s, run, k).mcntStart);
      NoneAccepted(c, s, run, k - 1, At(c, s, run, k).mcntStart + c.nm);
    }
  }

  lemma StartCounters(c: Config, blank: State)
    requires ValidConfig(c) && IsBlank(c, blank)
    ensures var s := Start(c, blank);
            Shaped(c, s) && s.counters[s.blockI] == 0 && s.counters[NextSlot(c, s)] == 0
  {
  }

  lemma NothingAccepted(c: Config, s: State, run: seq<Arrival>, start: nat)
    requires ValidConfig(c) && Shaped(c, s) && AllNominal(c, run)
    ensures |AcceptedFor(c, s, run, -1, 0, start)| == 0
  {
    assert AcceptedFor(c, s, run, -1, 0, start) == {};
  }

  // ---- the channels of the current block -------------------------------------------------------------

  /** A packet that is stored. */
  ghost predicate StoredAt(c: Config, s: State, run: seq<Arrival>, j: nat)
    requires ValidConfig(c) && Shaped(c, s) && AllNominal(c, run) && j < |run|
  {
    AcceptedAt(c, s, run, j) && run[j].p.sid < c.nSources
  }

  /** `pchan` and `nchan` are those of the first packet stored among `lo` .. `k` that has any
      channels; if none has, nchan is 0. */
  ghost predicate FirstChannels(c: Config, s: State, run: seq<Arrival>, lo: nat, k: nat, pchan: nat, nchan: nat)
    requires ValidConfig(c) && Shaped(c, s) && AllNominal(c, run) && k <= |run|
  {
    if nchan == 0 then forall j :: lo <= j < k && StoredAt(c, s, run, j) ==> run[j].p.nchan == 0
    else exists j :: lo <= j < k && IsFirst(c, s, run, lo, j) && run[j].p.pchan == pchan && run[j].p.nchan == nchan
  }

  ghost predicate IsFirst(c: Config, s: State, run: seq<Arrival>, lo: nat, j: nat)
    requires ValidConfig(c) && Shaped(c, s) && AllNominal(c, run) && j < |run|
  {
    StoredAt(c, s, run, j) && forall i :: lo <= i < j && StoredAt(c, s, run, i) ==> run[i].p.nchan == 0
  }

  lemma StepChannels(c: Config, s: State, a: Arrival)
    requires ValidConfig(c) && Shaped(c, s) && Nominal(c, a)
    ensures var t, v, p := Step(c, s, a), Classify(c, s, a.p.mcnt), a.p;
            if Resets(c, s, p.mcnt) then t.pchan == t.nchan == 0
            else if v.Closing? then
              if p.sid < c.nSources then t.pchan == p.pchan && t.nchan == p.nchan else t.pchan == t.nchan == 0
            else if v.Current? && p.sid < c.nSources && s.nchan == 0 then t.pchan == p.pchan && t.nchan == p.nchan
            else t.pchan == s.pchan && t.nchan == s.nchan
  {
  }

  /** The channels the thread reports with the current block are those of the first packet
      stored since the block became the current one, or since a reset, that has any. `e` is
      the packet that closed the block before or caused the reset. */
  lemma {:induction false} ChannelsTold(c: Config, blank: State, run: seq<Arrival>, e: int, k: nat)
    requires ValidConfig(c) && IsBlank(c, blank) && AllNominal(c, run) && -1 <= e < k <= |run|
    requires e >= 0 ==> VerdictAt(c, Start(c, blank), run, e).Closing? || ResetAt(c, Start(c, blank), run, e)
    requires forall i: nat :: e < i < k ==>
               !VerdictAt(c, Start(c, blank), run, i).Closing? && !ResetAt(c, Start(c, blank), run, i)
    ensures var u := At(c, Start(c, blank), run, k);
            FirstChannels(c, Start(c, blank), run, if e < 0 then 0 else e, k, u.pchan, u.nchan)
    decreases k
  {
    hide Step, Classify, At, Start, Shaped;
    var s, lo := Start(c, blank), if e < 0 then 0 else e;
    assert Inv(c, s) && Shaped(c, s) by { StartZero(c, blank); }
    if k == 0 {
      AtStart(c, s, run);
      assert s.nchan == 0 by { StartChannels(c, blank); }
    } else {
      AtNext(c, s, run, k - 1);
      StepChannels(c, At(c, s, run, k - 1), run[k - 1]);
      if k - 1 == e {
        assert StoredAt(c, s, run, e) ==> IsFirst(c, s, run, lo, e);
      } else {
        assert !VerdictAt(c, s, run, k - 1).Closing? && !ResetAt(c, s, run, k - 1);
        ChannelsTold(c, blank, run, e, k - 1);
        ChannelsNext(c, s, run, lo, k - 1);
      }
    }
  }

  lemma StartChannels(c: Config, blank: State)
    requires ValidConfig(c) && IsBlank(c, blank)
    ensures Start(c, blank).nchan == 0
  {
  }

  lemma ChannelsNext(c: Config, s: State, run: seq<Arrival>, lo: nat, k: nat)
    requires ValidConfig(c) && Shaped(c, s) && AllNominal(c, run) && k < |run| && lo <= k
    ensures forall pchan, nchan :: FirstChannels(c, s, run, lo, k, pchan, nchan) ==>
              if StoredAt(c, s, run, k) && nchan == 0
              then FirstChannels(c, s, run, lo, k + 1, run[k].p.pchan, run[k].p.nchan)
              else FirstChannels(c, s, run, lo, k + 1, pchan, nchan)
  {
    hide StoredAt;
    forall pchan, nchan | FirstChannels(c, s, run, lo, k, pchan, nchan) && StoredAt(c, s, run, k) && nchan == 0
      ensures FirstChannels(c, s, run, lo, k + 1, run[k].p.pchan, run[k].p.nchan)
    {
      assert IsFirst(c, s, run, lo, k);
    }
  }
}
