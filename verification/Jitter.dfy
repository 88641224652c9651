/** Packets that arrive out of order by at most half a block are all kept. */
module Jitter {
  import opened Arith
  import opened Placement
  import opened Assembler

  /** The largest mcnt of a run, or `top` if that is larger. */
  function Highest(top: nat, run: seq<Arrival>): (h: nat)
    ensures top <= h
    ensures forall a <- run :: a.p.mcnt <= h
  {
    if run == [] then top
    else
      var h := Highest(top, run[..|run| - 1]);
      assert run == run[..|run| - 1] + [run[|run| - 1]];
      Max(h, run[|run| - 1].p.mcnt)
  }

  function Max(a: nat, b: nat): nat { if a < b then b else a }

  predicate Near(c: Config, mcnt: nat, top: nat) {
    mcnt <= top + c.nm / 2 && top <= mcnt + c.nm / 2
  }

  /** Every packet is within half a block of the largest mcnt before it. */
  ghost predicate Jittered(c: Config, top: nat, run: seq<Arrival>) {
    run == [] || (Jittered(c, top, run[..|run| - 1]) && Near(c, run[|run| - 1].p.mcnt, Highest(top, run[..|run| - 1])))
  }

  ghost predicate AllNominal(c: Config, run: seq<Arrival>)
    requires ValidConfig(c)
  {
    forall a <- run :: Nominal(c, a)
  }

  lemma FrontNominal(c: Config, run: seq<Arrival>, k: nat)
    requires ValidConfig(c) && AllNominal(c, run) && k <= |run|
    ensures AllNominal(c, run[..k])
  {
  }

  /** How the k-th packet of a run is classed when it arrives. */
  ghost function VerdictAt(c: Config, s: State, run: seq<Arrival>, k: nat): Verdict
    requires ValidConfig(c) && Shaped(c, s) && AllNominal(c, run)
    requires k < |run|
  {
    FrontNominal(c, run, k);
    Classify(c, Run(c, s, run[..k]), run[k].p.mcnt)
  }

  /** The current block is never more than half a block from being closed by the
      newest packet, nor has it been closed too early. */
  predicate SteadyAt(c: Config, start: nat, top: nat) {
    top < start + 3 * (c.nm / 2) && (start == 0 || start + c.nm / 2 <= top)
  }

  /** As after a reset: the packets may still be up to a ring's length behind. */
  predicate CatchingAt(c: Config, start: nat, top: nat) {
    top < start + 3 * (c.nm / 2) && start + c.nm <= top + c.nBlocks * c.nm
  }

  predicate Steady(c: Config, s: State, top: nat)
    requires ValidConfig(c)
  {
    Inv(c, s) && SteadyAt(c, s.mcntStart, top)
  }

  predicate Catching(c: Config, s: State, top: nat)
    requires ValidConfig(c)
  {
    Inv(c, s) && CatchingAt(c, s.mcntStart, top)
  }

  /** The verdict on a packet and where the current block starts afterwards. */
  lemma StepStart(c: Config, s: State, a: Arrival)
    requires ValidConfig(c) && Inv(c, s) && Nominal(c, a)
    ensures var d, v, t := a.p.mcnt - s.mcntStart, Classify(c, s, a.p.mcnt), Step(c, s, a);
            && Inv(c, t)
            && (v.Current? <==> 0 <= d < 3 * (c.nm / 2))
            && (v.Closing? <==> 3 * (c.nm / 2) <= d < 2 * c.nm)
            && (v.LatePacket? <==> -2 * (c.nBlocks * c.nm) < d < 0)
            && (!v.OutOfSequence? ==> t.mcntStart == s.mcntStart + if v.Closing? then c.nm else 0)
  {
    StepInv(c, s, a);
    Distances(c, s, a.p.mcnt);
    LateIs(c);
  }

  lemma LateIs(c: Config)
    ensures LateThreshold(c) == 2 * (c.nBlocks * c.nm)
  {
  }

  lemma SteadyStep(c: Config, s: State, top: nat, a: Arrival)
    requires ValidConfig(c) && Steady(c, s, top) && Nominal(c, a)
    requires Near(c, a.p.mcnt, top)
    ensures Accepted(Classify(c, s, a.p.mcnt))
    ensures Steady(c, Step(c, s, a), Max(top, a.p.mcnt))
  {
    StepStart(c, s, a);
  }

  lemma CatchingStep(c: Config, s: State, top: nat, a: Arrival)
    requires ValidConfig(c) && Catching(c, s, top) && Nominal(c, a)
    requires Near(c, a.p.mcnt, top)
    ensures !Classify(c, s, a.p.mcnt).OutOfSequence?
    ensures !Classify(c, s, a.p.mcnt).Closing? ==> Catching(c, Step(c, s, a), Max(top, a.p.mcnt))
    ensures Classify(c, s, a.p.mcnt).Closing? ==> Steady(c, Step(c, s, a), Max(top, a.p.mcnt))
  {
    StepStart(c, s, a);
    RingSpan(c);
  }

  lemma {:induction false} JitteredPrefix(c: Config, top: nat, run: seq<Arrival>, k: nat)
    requires Jittered(c, top, run)
    requires k < |run|
    ensures Jittered(c, top, run[..k]) && Near(c, run[k].p.mcnt, Highest(top, run[..k]))
  {
    var front := run[..|run| - 1];
    if k < |front| {
      JitteredPrefix(c, top, front, k);
      assert front[..k] == run[..k];
    }
  }

  lemma {:induction false} SteadyRun(c: Config, s: State, top: nat, run: seq<Arrival>)
    requires ValidConfig(c) && Steady(c, s, top) && AllNominal(c, run)
    requires Jittered(c, top, run)
    ensures Steady(c, Run(c, s, run), Highest(top, run))
  {
    if run != [] {
      var front := run[..|run| - 1];
      SteadyRun(c, s, top, front);
      SteadyStep(c, Run(c, s, front), Highest(top, front), run[|run| - 1]);
    }
  }

  /** In any run from start-up in which each packet is within half a block of the
      largest mcnt so far, no packet is ever classed late or out of sequence. */
  lemma JitterTolerance(c: Config, blank: State, run: seq<Arrival>)
    requires ValidConfig(c) && IsBlank(c, blank) && AllNominal(c, run)
    requires Jittered(c, 0, run)
    ensures forall k :: 0 <= k < |run| ==> Accepted(VerdictAt(c, Start(c, blank), run, k))
  {
    var s := Start(c, blank);
    StartInv(c, blank);
    forall k | 0 <= k < |run| ensures Accepted(VerdictAt(c, s, run, k)) {
      JitteredPrefix(c, 0, run, k);
      FrontNominal(c, run, k);
      SteadyRun(c, s, 0, run[..k]);
      SteadyStep(c, Run(c, s, run[..k]), Highest(0, run[..k]), run[k]);
    }
  }

  /** Four packets: the run goes up to the last mcnt that leaves block 0 open and
      then leaps by half a block and one. */
  function Leap(c: Config, payload: seq<Word>): seq<Arrival>
    requires ValidConfig(c)
  {
    var h := c.nm / 2;
    var at := (m: nat) => Arrival(Packet(m, 0, 0, 0, payload), 0, 0);
    [at(h), at(2 * h), at(3 * h - 1), at(4 * h)]
  }

  /** Before any packet has closed block 0, packets below 3/2 blocks leave it open. */
  lemma {:induction false} OpenBlock(c: Config, blank: State, run: seq<Arrival>)
    requires ValidConfig(c) && IsBlank(c, blank) && AllNominal(c, run)
    requires forall a <- run :: a.p.mcnt < 3 * (c.nm / 2)
    ensures Inv(c, Run(c, Start(c, blank), run)) && Run(c, Start(c, blank), run).mcntStart == 0
  {
    StartInv(c, blank);
    if run != [] {
      OpenBlock(c, blank, run[..|run| - 1]);
      StepStart(c, Run(c, Start(c, blank), run[..|run| - 1]), run[|run| - 1]);
    }
  }

  /** Half a block is the exact limit: in every configuration there is a run whose
      packets are all within half a block but the last, which is further by one,
      and that packet is lost. */
  lemma JitterLimit(c: Config, blank: State, payload: seq<Word>)
    requires ValidConfig(c) && IsBlank(c, blank) && |payload| == PayloadWords(c.layout)
    ensures var run := Leap(c, payload);
            && AllNominal(c, run)
            && Jittered(c, 0, run[..3])
            && run[3].p.mcnt == Highest(0, run[..3]) + c.nm / 2 + 1
            && VerdictAt(c, Start(c, blank), run, 3).OutOfSequence?
  {
    hide Classify, Step, Run, Jittered, Highest, BlockFor, NextSlot;
    var run := Leap(c, payload);
    RingSpan(c);
    LeapJittered(c, payload);
    OpenBlock(c, blank, run[..3]);
    StepStart(c, Run(c, Start(c, blank), run[..3]), run[3]);
  }

  /** Four packets: the third closes block 0, the last is half a block and one behind it. */
  function Laggard(c: Config, payload: seq<Word>): seq<Arrival>
    requires ValidConfig(c)
  {
    var h := c.nm / 2;
    var at := (m: nat) => Arrival(Packet(m, 0, 0, 0, payload), 0, 0);
    [at(h), at(2 * h), at(3 * h), at(2 * h - 1)]
  }

  /** So it is behind the newest packet: one that is late by half a block and one is lost. */
  lemma JitterLimitBehind(c: Config, blank: State, payload: seq<Word>)
    requires ValidConfig(c) && IsBlank(c, blank) && |payload| == PayloadWords(c.layout)
    ensures var run := Laggard(c, payload);
            && AllNominal(c, run)
            && Jittered(c, 0, run[..3])
            && run[3].p.mcnt + c.nm / 2 + 1 == Highest(0, run[..3])
            && VerdictAt(c, Start(c, blank), run, 3).LatePacket?
  {
    hide Classify, Step, Run, Jittered, Highest, BlockFor, NextSlot;
    var run := Laggard(c, payload);
    RingSpan(c);
    LaggardJittered(c, payload);
    OpenBlock(c, blank, run[..2]);
    assert run[..3][..2] == run[..2];
    RunNext(c, Start(c, blank), run, 2);
    StepStart(c, Run(c, Start(c, blank), run[..2]), run[2]);
    StepStart(c, Run(c, Start(c, blank), run[..3]), run[3]);
  }

  lemma RunNext(c: Config, s: State, run: seq<Arrival>, k: nat)
    requires ValidConfig(c) && Shaped(c, s) && AllNominal(c, run) && k < |run|
    ensures AllNominal(c, run[..k]) && AllNominal(c, run[..k + 1])
    ensures Run(c, s, run[..k + 1]) == Step(c, Run(c, s, run[..k]), run[k])
  {
    assert run[..k + 1][..k] == run[..k];
  }

  lemma LaggardJittered(c: Config, payload: seq<Word>)
    requires ValidConfig(c)
    ensures var run := Laggard(c, payload);
            Jittered(c, 0, run[..3]) && Highest(0, run[..3]) == 3 * (c.nm / 2)
  {
    var run := Laggard(c, payload);
    assert run[..1][..0] == [] && run[..2][..1] == run[..1] && run[..3][..2] == run[..2];
    assert Jittered(c, 0, run[..1]) && Highest(0, run[..1]) == c.nm / 2;
    assert Jittered(c, 0, run[..2]) && Highest(0, run[..2]) == 2 * (c.nm / 2);
  }

  lemma LeapJittered(c: Config, payload: seq<Word>)
    requires ValidConfig(c)
    ensures var run := Leap(c, payload);
            Jittered(c, 0, run[..3]) && Highest(0, run[..3]) == 3 * (c.nm / 2) - 1
  {
    var run := Leap(c, payload);
    assert run[..1][..0] == [] && run[..2][..1] == run[..1] && run[..3][..2] == run[..2];
    assert Jittered(c, 0, run[..1]) && Highest(0, run[..1]) == c.nm / 2;
    assert Jittered(c, 0, run[..2]) && Highest(0, run[..2]) == 2 * (c.nm / 2);
  }

  ghost predicate SomeClosing(c: Config, t: State, run: seq<Arrival>)
    requires ValidConfig(c) && Shaped(c, t) && AllNominal(c, run)
  {
    exists j :: 0 <= j < |run| && VerdictAt(c, t, run, j).Closing?
  }

  lemma {:induction false} CatchingRun(c: Config, t: State, top: nat, run: seq<Arrival>)
    requires ValidConfig(c) && Catching(c, t, top) && AllNominal(c, run)
    requires Jittered(c, top, run)
    ensures if SomeClosing(c, t, run) then Steady(c, Run(c, t, run), Highest(top, run))
            else Catching(c, Run(c, t, run), Highest(top, run))
  {
    hide Step, Classify, Shaped, CatchingAt, SteadyAt;
    if run != [] {
      var n := |run| - 1;
      var front := run[..n];
      CatchingRun(c, t, top, front);
      if SomeClosing(c, t, front) {
        SteadyStep(c, Run(c, t, front), Highest(top, front), run[n]);
        var j :| 0 <= j < n && VerdictAt(c, t, front, j).Closing?;
        assert front[..j] == run[..j];
        assert VerdictAt(c, t, run, j).Closing?;
      } else {
        CatchingStep(c, Run(c, t, front), Highest(top, front), run[n]);
        assert VerdictAt(c, t, run, n) == Classify(c, Run(c, t, front), run[n].p.mcnt);
        NoneBefore(c, t, run);
      }
    }
  }

  lemma NoneBefore(c: Config, t: State, run: seq<Arrival>)
    requires ValidConfig(c) && Shaped(c, t) && AllNominal(c, run) && run != []
    requires !SomeClosing(c, t, run[..|run| - 1])
    ensures SomeClosing(c, t, run) <==> VerdictAt(c, t, run, |run| - 1).Closing?
  {
    var front := run[..|run| - 1];
    forall j | 0 <= j < |front| ensures !VerdictAt(c, t, run, j).Closing? {
      assert front[..j] == run[..j];
      assert !VerdictAt(c, t, front, j).Closing?;
    }
  }

  /** After a reset, while each packet is within half a block of the largest mcnt
      since the packet that caused it, no packet is out of sequence, and once a
      block has been closed none is late either. */
  lemma JitterAfter(c: Config, t: State, top: nat, run: seq<Arrival>)
    requires ValidConfig(c) && Catching(c, t, top) && AllNominal(c, run)
    requires Jittered(c, top, run)
    ensures forall k :: 0 <= k < |run| ==> !VerdictAt(c, t, run, k).OutOfSequence?
    ensures forall j, k :: 0 <= j < k < |run| && VerdictAt(c, t, run, j).Closing? ==> Accepted(VerdictAt(c, t, run, k))
  {
    hide Step, Classify, Shaped, BlockFor, NextSlot, CatchingAt, SteadyAt, Jittered, Highest, Near;
    forall k | 0 <= k < |run|
      ensures !VerdictAt(c, t, run, k).OutOfSequence?
      ensures (exists j :: 0 <= j < k && VerdictAt(c, t, run, j).Closing?) ==> Accepted(VerdictAt(c, t, run, k))
    {
      var front := run[..k];
      JitteredPrefix(c, top, run, k);
      CatchingRun(c, t, top, front);
      if SomeClosing(c, t, front) {
        SteadyStep(c, Run(c, t, front), Highest(top, front), run[k]);
      } else {
        CatchingStep(c, Run(c, t, front), Highest(top, front), run[k]);
        forall j | 0 <= j < k ensures !VerdictAt(c, t, run, j).Closing? {
          assert front[..j] == run[..j];
          assert !VerdictAt(c, t, front, j).Closing?;
        }
      }
    }
  }

  /** The state a reset leaves satisfies the premise of JitterAfter. */
  lemma ResetCatches(c: Config, s: State, a: Arrival)
    requires ValidConfig(c) && Inv(c, s) && Nominal(c, a)
    requires Resets(c, s, a.p.mcnt)
    ensures Catching(c, Step(c, s, a), a.p.mcnt)
  {
    hide BlockStart, BlockFor, NextSlot, Step, Shaped, ResetTarget, CatchingAt;
    StepInv(c, s, a);
    BumpedInv(c, s);
    ResetCatchingAt(c, Bumped(s), a.p.mcnt);
    ResetGoesTo(c, s, a);
  }

  lemma ResetGoesTo(c: Config, s: State, a: Arrival)
    requires ValidConfig(c) && Shaped(c, s) && Nominal(c, a)
    requires Resets(c, s, a.p.mcnt)
    ensures Step(c, s, a).mcntStart == BlockStart(c, ResetTarget(c, Bumped(s), a.p.mcnt))
  {
    hide Classify, BlockStart, BlockFor, ResetTarget;
  }

  lemma ResetCatchingAt(c: Config, u: State, mcnt: nat)
    requires ValidConfig(c) && Inv(c, u) && mcnt < TWO56
    ensures CatchingAt(c, BlockStart(c, ResetTarget(c, u, mcnt)), mcnt)
  {
    hide BlockStart, BlockFor, Skip, ResetTarget;
    ResetStart(c, u, mcnt);
    BlockSplit(c, mcnt);
    RingAhead(BlockNo(c, mcnt), Skip(c, u, mcnt), mcnt - BlockStart(c, mcnt), c.nBlocks, c.nm);
  }

  lemma BlockSplit(c: Config, mcnt: nat)
    requires ValidConfig(c)
    ensures BlockStart(c, mcnt) == BlockNo(c, mcnt) * c.nm
    ensures BlockStart(c, mcnt) <= mcnt < BlockStart(c, mcnt) + c.nm
  {
    DivModSplit(mcnt, c.nm);
  }

  lemma RingAhead(k: nat, d: nat, r: nat, n: nat, nm: nat)
    requires d < n && r < nm
    ensures k * nm <= (k + d) * nm
    ensures (k + d) * nm + nm <= k * nm + r + n * nm
  {
    MulMono(d + 1, n, nm);
    assert (d + 1) * nm == d * nm + nm;
    assert (k + d) * nm == k * nm + d * nm;
    MulMono(k, k + d, nm);
  }

  /** Resets resynchronise: whatever happened before, from the resetting packet on
      a jittered run is followed without a packet out of sequence, and without a
      late one once a block is closed. */
  lemma ResetResynchronises(c: Config, blank: State, before: seq<Arrival>, a: Arrival, run: seq<Arrival>)
    requires ValidConfig(c) && IsBlank(c, blank) && AllNominal(c, before) && Nominal(c, a) && AllNominal(c, run)
    requires Resets(c, Run(c, Start(c, blank), before), a.p.mcnt)
    requires Jittered(c, a.p.mcnt, run)
    ensures var t := Step(c, Run(c, Start(c, blank), before), a);
            && (forall k :: 0 <= k < |run| ==> !VerdictAt(c, t, run, k).OutOfSequence?)
            && (forall j, k :: 0 <= j < k < |run| && VerdictAt(c, t, run, j).Closing? ==>
                  Accepted(VerdictAt(c, t, run, k)))
  {
    RingOrder(c, blank, before);
    var s := Run(c, Start(c, blank), before);
    ResetCatches(c, s, a);
    JitterAfter(c, Step(c, s, a), a.p.mcnt, run);
  }

  /** Consecutive mcnts are a jittered run. */
  lemma {:induction false} ConsecutiveIsJittered(c: Config, top: nat, run: seq<Arrival>)
    requires ValidConfig(c)
    requires forall i :: 0 <= i < |run| ==> run[i].p.mcnt == top + 1 + i
    ensures Jittered(c, top, run)
    ensures Highest(top, run) == top + |run|
  {
    if run != [] {
      ConsecutiveIsJittered(c, top, run[..|run| - 1]);
    }
  }
}
