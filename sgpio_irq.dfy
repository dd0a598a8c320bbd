/**
 * The interrupt side of the controller, as values: how a requested trigger
 * type becomes a 2-bit event code and a flow handler, how a hardware
 * interrupt number is decoded into (bank, bit), and which interrupt numbers
 * one pass of the chained handler delivers for a set of status bytes.
 */
module SgpioIrq {
  import opened Wrappers
  import opened SgpioRegs

  /** The kernel's IRQ_TYPE_* sense codes (include/linux/irq.h, which is not
      part of this model). */
  const IrqTypeEdgeRising: bv32 := 0x1
  const IrqTypeEdgeFalling: bv32 := 0x2
  const IrqTypeEdgeBoth: bv32 := 0x3
  const IrqTypeLevelHigh: bv32 := 0x4
  const IrqTypeLevelLow: bv32 := 0x8
  const IrqTypeSenseMask: bv32 := 0xF

  /** The flow handler the interrupt framework runs for a line: the
      framework's default handle_bad_irq until a type is set, then
      handle_edge_irq or handle_level_irq. */
  datatype FlowHandler = BadIrq | EdgeIrq | LevelIrq

  /** What npcm_sgpio_set_type derives from a requested type. */
  datatype Trigger = Trigger(code: bv8, flow: FlowHandler)

  /** The switch of npcm_sgpio_set_type on `type & IRQ_TYPE_SENSE_MASK`.
      Level types reuse the edge codes: level-high is detected as a rising
      edge and level-low as a falling edge. */
  function TypeCode(irqType: bv32): (t: Option<Trigger>)
    ensures var sense := irqType & 0xF;
      t.Some? <==> sense in {IrqTypeEdgeRising, IrqTypeEdgeFalling, IrqTypeEdgeBoth, IrqTypeLevelHigh, IrqTypeLevelLow}
    ensures t.Some? ==> 1 <= t.value.code <= 3
    ensures var sense := irqType & 0xF;
      t.Some? ==> (t.value.code & EvCfgRising != 0 <==> sense in {IrqTypeEdgeRising, IrqTypeEdgeBoth, IrqTypeLevelHigh})
    ensures var sense := irqType & 0xF;
      t.Some? ==> (t.value.code & EvCfgFalling != 0 <==> sense in {IrqTypeEdgeFalling, IrqTypeEdgeBoth, IrqTypeLevelLow})
    ensures var sense := irqType & 0xF;
      t.Some? ==> (t.value.flow == EdgeIrq <==> sense in {IrqTypeEdgeRising, IrqTypeEdgeFalling, IrqTypeEdgeBoth})
    ensures t.Some? ==> t.value.flow != BadIrq
  {
    var sense := irqType & IrqTypeSenseMask;
    if sense == IrqTypeEdgeBoth then Some(Trigger(EvCfgBoth, EdgeIrq))
    else if sense == IrqTypeEdgeRising then Some(Trigger(EvCfgRising, EdgeIrq))
    else if sense == IrqTypeEdgeFalling then Some(Trigger(EvCfgFalling, EdgeIrq))
    else if sense == IrqTypeLevelHigh then Some(Trigger(EvCfgRising, LevelIrq))
    else if sense == IrqTypeLevelLow then Some(Trigger(EvCfgFalling, LevelIrq))
    else None
  }

  // -----------------------------------------------------------------------
  // Decoding an interrupt number
  // -----------------------------------------------------------------------

  /** What irqd_to_npcm_sgpio_data yields: the input-relative line offset,
      its bank and its bit. */
  datatype IrqData = IrqData(offset: nat, bank: Bank, bit: bv8)

  /** irqd_to_npcm_sgpio_data: interrupt numbers count the output lines
      first, so the input-relative offset is hwirq - nout. */
  function IrqToData(nout: nat, hwirq: nat): (d: IrqData)
    requires nout <= hwirq < nout + MaxLines
    ensures d.offset + nout == hwirq && d.offset < MaxLines
    ensures d.bank == Banks[d.offset / LinesPerBank]
    ensures d.bit < 8 && d.bit as int == d.offset % LinesPerBank
  {
    var offset := hwirq - nout;
    IrqData(offset, ToBank(offset), BitIndex(offset))
  }

  // -----------------------------------------------------------------------
  // The chained handler's deliveries
  // -----------------------------------------------------------------------

  /** Whether bit j of a status byte is set (for_each_set_bit). */
  predicate StatusBit(sts: bv8, j: nat)
    requires j < 8
  {
    sts & (1 << j) != 0
  }

  /** The interrupt numbers delivered for bits [0, n) of one bank's status
      byte, in ascending bit order; `first` is the number of the bank's bit 0. */
  function BankHits(first: nat, sts: bv8, n: nat): seq<nat>
    requires n <= 8
  {
    if n == 0 then []
    else BankHits(first, sts, n - 1) + (if StatusBit(sts, n - 1) then [first + n - 1] else [])
  }

  /** The interrupt numbers one pass of npcm_sgpio_irq_handler delivers for
      the status bytes of banks 0 .. |sts| - 1: bank i's bit j gives
      i * 8 + nout + j. */
  function Dispatch(nout: nat, sts: seq<bv8>): seq<nat>
  {
    if sts == [] then []
    else
      var i := |sts| - 1;
      Dispatch(nout, sts[..i]) + BankHits(i * LinesPerBank + nout, sts[i], LinesPerBank)
  }

  ghost predicate StrictlyAscending(d: seq<nat>)
  {
    forall p, q :: 0 <= p < q < |d| ==> d[p] < d[q]
  }

  lemma {:induction false} BankHitsSpec(first: nat, sts: bv8, n: nat)
    requires n <= 8
    ensures forall x :: x in BankHits(first, sts, n) <==> first <= x < first + n && StatusBit(sts, x - first)
    ensures StrictlyAscending(BankHits(first, sts, n))
  {
    if n > 0 {
      BankHitsSpec(first, sts, n - 1);
      var d := BankHits(first, sts, n - 1);
      var t := if StatusBit(sts, n - 1) then [first + n - 1] else [];
      forall p, q | 0 <= p < q < |d + t|
        ensures (d + t)[p] < (d + t)[q]
      {
        if p < |d| && q >= |d| {
          assert (d + t)[p] == d[p] && d[p] in d;
        }
      }
    }
  }

  /** One pass delivers exactly the numbers of the set status bits, each
      once, in ascending order (bank by bank, bit by bit within a bank). */
  lemma {:induction false} DispatchSpec(nout: nat, sts: seq<bv8>)
    ensures forall x :: x in Dispatch(nout, sts) <==>
      nout <= x < nout + LinesPerBank * |sts| && StatusBit(sts[(x - nout) / LinesPerBank], (x - nout) % LinesPerBank)
    ensures StrictlyAscending(Dispatch(nout, sts))
  {
    if sts != [] {
      var i := |sts| - 1;
      var prefix := sts[..i];
      DispatchSpec(nout, prefix);
      var first := i * LinesPerBank + nout;
      BankHitsSpec(first, sts[i], LinesPerBank);
      var d := Dispatch(nout, prefix);
      var h := BankHits(first, sts[i], LinesPerBank);
      assert Dispatch(nout, sts) == d + h;
      forall x
        ensures x in d + h <==>
          nout <= x < nout + LinesPerBank * |sts| && StatusBit(sts[(x - nout) / LinesPerBank], (x - nout) % LinesPerBank)
      {
        if nout <= x < nout + LinesPerBank * |sts| {
          var b := (x - nout) / LinesPerBank;
          if b < i {
            assert sts[b] == prefix[b];
          } else {
            assert b == i;
            assert x - first == (x - nout) % LinesPerBank;
          }
        }
      }
      forall p, q | 0 <= p < q < |d + h|
        ensures (d + h)[p] < (d + h)[q]
      {
        if p < |d| && q >= |d| {
          assert (d + h)[p] == d[p] && d[p] in d;
          assert (d + h)[q] == h[q - |d|] && h[q - |d|] in h;
        }
      }
    }
  }

  /** The dispatcher's numbering and the interrupt chip's decoding agree:
      the number delivered for bank i, bit j decodes back to line i * 8 + j
      of bank i at bit j. */
  lemma DispatchDecodes(nout: nat, i: nat, j: nat)
    requires i < NumBanks && j < LinesPerBank
    ensures IrqToData(nout, i * LinesPerBank + nout + j) == IrqData(i * LinesPerBank + j, Banks[i], j as bv8)
  {
    var d := IrqToData(nout, i * LinesPerBank + nout + j);
    assert d.offset == i * LinesPerBank + j;
    assert d.offset / LinesPerBank == i;
    assert d.bit as int == j;
  }

  /** Two strictly ascending sequences with the same elements are equal. */
  lemma {:induction false} AscendingUnique(s: seq<nat>, t: seq<nat>)
    requires StrictlyAscending(s) && StrictlyAscending(t)
    requires forall x :: x in s <==> x in t
    ensures s == t
    decreases |s|
  {
    assert s != [] ==> s[0] in t;
    assert t != [] ==> t[0] in s;
    if s != [] && t != [] {
      assert s[0] == t[0];
      forall x
        ensures x in s[1..] <==> x in t[1..]
      {
        assert x in s[1..] <==> x in s && x != s[0] by {
          if x in s[1..] {
            var k :| 0 <= k < |s[1..]| && s[1..][k] == x;
            assert s[k + 1] == x;
          }
          if x in s && x != s[0] {
            var k :| 0 <= k < |s| && s[k] == x;
            assert s[1..][k - 1] == x;
          }
        }
        assert x in t[1..] <==> x in t && x != t[0] by {
          if x in t[1..] {
            var k :| 0 <= k < |t[1..]| && t[1..][k] == x;
            assert t[k + 1] == x;
          }
          if x in t && x != t[0] {
            var k :| 0 <= k < |t| && t[k] == x;
            assert t[1..][k - 1] == x;
          }
        }
      }
      AscendingUnique(s[1..], t[1..]);
      assert s == [s[0]] + s[1..] && t == [t[0]] + t[1..];
    }
  }

  /** Status bits pending for input lines 3, 20 and 50 (bank 0 bit 3, bank 2
      bit 4, bank 6 bit 2) give three deliveries, in that order. */
  lemma DispatchThreeLines(nout: nat)
    ensures Dispatch(nout, [0x08, 0, 0x10, 0, 0, 0, 0x04, 0]) == [nout + 3, nout + 20, nout + 50]
  {
    var sts: seq<bv8> := [0x08, 0, 0x10, 0, 0, 0, 0x04, 0];
    DispatchSpec(nout, sts);
    var d := Dispatch(nout, sts);
    forall x
      ensures x in d <==> x == nout + 3 || x == nout + 20 || x == nout + 50
    {
      if nout <= x < nout + 64 {
        var b := (x - nout) / LinesPerBank;
        assert b in {0, 1, 2, 3, 4, 5, 6, 7};
      }
    }
    AscendingUnique(d, [nout + 3, nout + 20, nout + 50]);
  }
}
