/** The system-wide number of a fine channel, as s6_chan2if computes it, and how to read
    instance, coarse and fine channel back from it. Masks of low bits are read as
    remainders, which they are for an int32_t of either sign. */
module ChannelNumber {
  import opened Arith

  datatype System = Gbt | Ao

  /** Fine channels of a coarse channel. */
  function FineChans(o: System): int {
    if o.Gbt? then 0x80000 else 0x20000
  }

  function CoarsePerInstance(o: System): int {
    if o.Gbt? then 512 else 320
  }

  function StartChan(o: System): int {
    if o.Gbt? then 0 else 1006
  }

  /** The int32_t with the bits of `x`. */
  function Int32(x: nat): int
    requires x < 0x1_0000_0000
  {
    if x < 0x8000_0000 then x else x - 0x1_0000_0000
  }

  /** The low bits of the fine channel, with all bits above set if the highest of them is. */
  function SignExtended(o: System, fine: int): int {
    var low := fine % FineChans(o);
    if (fine / (FineChans(o) / 2)) % 2 == 1 then Int32(low + (0x1_0000_0000 - FineChans(o))) else low
  }

  lemma SignGbt(fine: int)
    ensures (fine / 0x40000) % 2 == 1 <==> fine % 0x80000 >= 0x40000
  {
  }

  lemma SignAo(fine: int)
    ensures (fine / 0x10000) % 2 == 1 <==> fine % 0x20000 >= 0x10000
  {
  }

  /** That is the channel's distance from the centre of its coarse channel. */
  lemma SignExtendedIs(o: System, fine: int)
    ensures -(FineChans(o) / 2) <= SignExtended(o, fine) < FineChans(o) / 2
    ensures SignExtended(o, fine) == fine % FineChans(o)
         || SignExtended(o, fine) == fine % FineChans(o) - FineChans(o)
  {
    SignGbt(fine);
    SignAo(fine);
  }

  function SysCoarse(o: System, instance: int, cc: int): int {
    StartChan(o) + instance * CoarsePerInstance(o) + cc
  }

  function SysFine(o: System, instance: int, cc: int, fine: int): int {
    FineChans(o) * SysCoarse(o, instance, cc) + SignExtended(o, fine)
  }

  lemma Shifted(c: int, s: int, d: int)
    requires d > 0 && 0 <= s < d
    ensures (d * c + s) / d == c && (d * c + s) % d == s
  {
    var q, r := (d * c + s) / d, (d * c + s) % d;
    assert d * (q - c) == s - r;
    if q > c {
      assert d * (q - c) >= d by { MulMono(1, q - c, d); }
    } else if q < c {
      assert d * (c - q) >= d by { MulMono(1, c - q, d); }
    }
  }

  /** For every channel of the eight instances the number fits an int and tells the
      instance, the coarse and the fine channel. */
  lemma SysFineRoundTrip(o: System, instance: int, cc: int, fine: int)
    requires 0 <= instance < 8 && 0 <= cc < CoarsePerInstance(o) && 0 <= fine < FineChans(o)
    ensures var n := SysFine(o, instance, cc, fine);
            && -0x8000_0000 <= n < 0x8000_0000
            && n % (if o.Gbt? then 524288 else 131072) == fine
            && (n + FineChans(o) / 2) / FineChans(o) == (if o.Gbt? then 512 * instance else 1006 + 320 * instance) + cc
            && (n + FineChans(o) / 2) / FineChans(o) == SysCoarse(o, instance, cc)
            && (SysCoarse(o, instance, cc) - StartChan(o)) / CoarsePerInstance(o) == instance
            && (SysCoarse(o, instance, cc) - StartChan(o)) % CoarsePerInstance(o) == cc
  {
    var d, c, e := FineChans(o), SysCoarse(o, instance, cc), SignExtended(o, fine);
    assert 0 <= c < 4096 && fine % d == fine;
    SignExtendedIs(o, fine);
    hide SignExtended;
    Shifted(c, e + d / 2, d);
    if e == fine {
      Shifted(c, fine, d);
    } else {
      Shifted(c - 1, fine, d);
      assert d * (c - 1) == d * c - d;
    }
    Shifted(instance, cc, CoarsePerInstance(o));
  }
}
