/**
 * The register window as a value: the 0x2C bytes at the controller's base,
 * and what each entry point of the driver leaves in them.  The methods of
 * SgpioController.Controller are proved to produce exactly these windows;
 * the lemmas here say what the windows mean (which slot, bit or field
 * changes, and that nothing else does).
 */
module SgpioWindow {
  import opened SgpioRegs
  import opened SgpioClock
  import opened SgpioIrq

  predicate IsWindow(s: seq<bv8>)
  {
    |s| == WindowSize
  }

  /** The 16-bit event-config word of bank i. */
  function EventWord(s: seq<bv8>, i: nat): bv16
    requires IsWindow(s) && i < NumBanks
  {
    Word(s[Addr(i, EventCfg)], s[Addr(i, EventCfg) + 1])
  }

  /** iowrite16 of w at address a. */
  function PutWord(s: seq<bv8>, a: nat, w: bv16): (r: seq<bv8>)
    requires a + 1 < |s|
    ensures |r| == |s|
  {
    s[a := LowByte(w)][a + 1 := HighByte(w)]
  }

  // ---------------------------------------------------------------------
  // Direction and line I/O
  // ---------------------------------------------------------------------

  /** npcm_sgpio_get_direction: the first nout lines are outputs (0), the
      rest inputs (1). */
  function Direction(nout: nat, offset: nat): (dir: int)
    ensures dir == 0 || dir == 1
    ensures dir == 0 <==> offset < nout
  {
    if offset < nout then 0 else 1
  }

  /** npcm_sgpio_dir_in: switching a line to input succeeds exactly for
      the lines that are inputs. */
  function DirIn(nout: nat, offset: nat): (rc: int)
    ensures rc == 0 || rc == -EINVAL
    ensures rc == 0 <==> Direction(nout, offset) == 1
  {
    if offset < nout then -EINVAL else 0
  }

  /** npcm_sgpio_get: an output line reads back the bit the driver last
      wrote to its write-data byte; input line `offset` reads bit
      (offset - nout) of the read-data bytes. */
  function GetValue(s: seq<bv8>, nout: nat, offset: nat): (v: bv8)
    requires IsWindow(s) && nout <= MaxLines && offset < nout + MaxLines
    ensures v == 0 || v == 1
    ensures offset < nout ==>
      (v == 1 <==> s[offset / LinesPerBank] & (1 << BitIndex(offset)) != 0)
    ensures offset >= nout ==>
      (v == 1 <==> s[NumBanks + (offset - nout) / LinesPerBank] & (1 << BitIndex(offset - nout)) != 0)
  {
    if Direction(nout, offset) == 0 then
      ToBankAddress(offset, WriteData);
      BitOf(s[BankReg(ToBank(offset), WriteData)], BitIndex(offset))
    else
      var o := offset - nout;
      ToBankAddress(o, ReadData);
      BitOf(s[BankReg(ToBank(o), ReadData)], BitIndex(o))
  }

  lemma GetValueInput(s: seq<bv8>, nout: nat, offset: nat)
    requires IsWindow(s) && nout <= MaxLines && nout <= offset < nout + MaxLines
    ensures BankReg(ToBank(offset - nout), ReadData) < WindowSize
    ensures GetValue(s, nout, offset) == BitOf(s[BankReg(ToBank(offset - nout), ReadData)], BitIndex(offset - nout))
  {
    ToBankAddress(offset - nout, ReadData);
  }

  /** The window after npcm_sgpio_set(offset, val). */
  function SetWindow(s: seq<bv8>, offset: nat, val: bv32): (r: seq<bv8>)
    requires IsWindow(s) && offset < MaxLines
    ensures IsWindow(r)
  {
    ToBankAddress(offset, WriteData);
    var a := BankReg(ToBank(offset), WriteData);
    s[a := LineWrite(s[a], BitIndex(offset), val)]
  }

  /** Setting an output line to 0 or 1 makes it read back that value,
      leaves every other line's value alone, and touches no byte but the
      line's write-data byte. */
  lemma SetThenGet(s: seq<bv8>, nout: nat, offset: nat, val: bv32)
    requires IsWindow(s) && nout <= MaxLines && offset < MaxLines
    requires val == 0 || val == 1
    ensures offset < nout ==> GetValue(SetWindow(s, offset, val), nout, offset) == val as bv8
    ensures forall o :: 0 <= o < nout + MaxLines && o != offset ==>
      GetValue(SetWindow(s, offset, val), nout, o) == GetValue(s, nout, o)
    ensures forall k :: 0 <= k < WindowSize && k != offset / LinesPerBank ==>
      SetWindow(s, offset, val)[k] == s[k]
  {
    ToBankAddress(offset, WriteData);
    forall o | 0 <= o < nout + MaxLines && o != offset
      ensures GetValue(SetWindow(s, offset, val), nout, o) == GetValue(s, nout, o)
    {
      SetKeepsLine(s, nout, offset, val, o);
    }
  }

  lemma SetKeepsLine(s: seq<bv8>, nout: nat, offset: nat, val: bv32, o: nat)
    requires IsWindow(s) && nout <= MaxLines && offset < MaxLines
    requires val == 0 || val == 1
    requires o < nout + MaxLines && o != offset
    ensures GetValue(SetWindow(s, offset, val), nout, o) == GetValue(s, nout, o)
  {
    ToBankAddress(offset, WriteData);
    var r := SetWindow(s, offset, val);
    var a := offset / LinesPerBank;
    if o < nout {
      ToBankAddress(o, WriteData);
      if o / LinesPerBank == a {
        assert BitIndex(o) != BitIndex(offset);
        assert BitOf(r[a], BitIndex(o)) == BitOf(s[a], BitIndex(o));
      }
    } else {
      ToBankAddress(o - nout, ReadData);
    }
  }

  // ---------------------------------------------------------------------
  // Interface enable (IOXCTS)
  // ---------------------------------------------------------------------

  /** The window after npcm_sgpio_setup_enable(enable). */
  function EnableWindow(s: seq<bv8>, enable: bool): (r: seq<bv8>)
    requires IsWindow(s)
    ensures IsWindow(r)
  {
    s[IoxCts := EnableByte(s[IoxCts], enable)]
  }

  // ---------------------------------------------------------------------
  // Port widths (IOXCFG2) and shift clock (IOXCFG1)
  // ---------------------------------------------------------------------

  /** The byte npcm_sgpio_init_port programs into IOXCFG2. */
  function PortSetting(nin: nat, nout: nat): bv8
    requires nin <= MaxLines && nout <= MaxLines
  {
    PortByte(PortCount(nin) as bv8, PortCount(nout) as bv8)
  }

  /** The IOXCFG2 byte carries the input port count in its low nibble and
      the output port count in its high nibble, both whole. */
  lemma PortSettingDecodes(nin: nat, nout: nat)
    requires nin <= MaxLines && nout <= MaxLines
    ensures PortCount(nin) <= NumBanks && PortCount(nout) <= NumBanks
    ensures (PortSetting(nin, nout) & 0xF) as int == PortCount(nin)
    ensures (PortSetting(nin, nout) >> 4) as int == PortCount(nout)
  {
    var pi := PortCount(nin);
    var po := PortCount(nout);
    assert pi <= 8 && po <= 8;
    assert (pi as bv8) & 0xF == pi as bv8 && (pi as bv8) as int == pi;
    assert (po as bv8) & 0xF == po as bv8 && (po as bv8) as int == po;
  }

  /** The window after npcm_sgpio_init_port writes IOXCFG2. */
  function PortWindow(s: seq<bv8>, nin: nat, nout: nat): (r: seq<bv8>)
    requires IsWindow(s) && nin <= MaxLines && nout <= MaxLines
    ensures IsWindow(r)
  {
    s[IoxCfg2 := PortSetting(nin, nout)]
  }

  /** The window after npcm_sgpio_setup_clk programs table entry k: the
      entry's CLK_SEL code in the SFT_CLK field, bits 4-7 as they were. */
  function ClkWindow(s: seq<bv8>, cfg: ClkCfg, k: nat): (r: seq<bv8>)
    requires IsWindow(s) && WellFormed(cfg) && k < cfg.cfgOpt
    ensures IsWindow(r)
  {
    s[IoxCfg1 := cfg.clkSel[k] | (s[IoxCfg1] & !IoxCfg1SftClk)]
  }

  /** For both chips' tables the selected code lands whole in the SFT_CLK
      field and the clock and load/shift polarity bits survive. */
  lemma ClkWindowFields(s: seq<bv8>, cfg: ClkCfg, k: nat)
    requires IsWindow(s) && (cfg == Npcm750 || cfg == Npcm845) && k < cfg.cfgOpt
    ensures WellFormed(cfg)
    ensures ClkWindow(s, cfg, k)[IoxCfg1] & IoxCfg1SftClk == cfg.clkSel[k]
    ensures ClkWindow(s, cfg, k)[IoxCfg1] & 0xF0 == s[IoxCfg1] & 0xF0
    ensures forall a :: 0 <= a < WindowSize && a != IoxCfg1 ==> ClkWindow(s, cfg, k)[a] == s[a]
  {
    assert cfg.clkSel[k] in cfg.clkSel;
    assert cfg.clkSel[k] & 0xF0 == 0;
  }

  // ---------------------------------------------------------------------
  // Interrupt chip
  // ---------------------------------------------------------------------

  /** The bracketed event-config update shared by irq_set_mask and
      set_type: interface disabled, word w written at address a, interface
      enabled again. */
  function WordWindow(s: seq<bv8>, a: nat, w: bv16): (r: seq<bv8>)
    requires IsWindow(s) && a + 1 < IoxCts
    ensures IsWindow(r)
  {
    EnableWindow(PutWord(EnableWindow(s, false), a, w), true)
  }

  /** The bracketed update leaves w as bank i's word, every other bank's
      word as it was, IOXCTS enabled in periodic read mode, and every other
      byte unchanged. */
  lemma WordWindowEffect(s: seq<bv8>, i: nat, w: bv16)
    requires IsWindow(s) && i < NumBanks
    ensures var a := Addr(i, EventCfg);
      var r := WordWindow(s, a, w);
      && EventWord(r, i) == w
      && (forall k :: 0 <= k < NumBanks && k != i ==> EventWord(r, k) == EventWord(s, k))
      && r[IoxCts] == EnableByte(s[IoxCts], true)
      && (forall b :: 0 <= b < WindowSize && b != a && b != a + 1 && b != IoxCts ==> r[b] == s[b])
  {
    var a := Addr(i, EventCfg);
    var r := WordWindow(s, a, w);
    assert r[a] == LowByte(w) && r[a + 1] == HighByte(w);
    WordRoundTrip(w);
    EnableBracket(s[IoxCts]);
    forall k | 0 <= k < NumBanks && k != i
      ensures EventWord(r, k) == EventWord(s, k)
    {
      assert r[Addr(k, EventCfg)] == s[Addr(k, EventCfg)];
      assert r[Addr(k, EventCfg) + 1] == s[Addr(k, EventCfg) + 1];
    }
  }

  /** The window after npcm_sgpio_irq_set_mask(hwirq, masked), with `code`
      the line's stored int_type: the line's event-config slot cleared
      (masked) or ORed with code (unmasked) inside the disable/enable
      bracket, then the line's bit ORed into its bank's status byte. */
  function MaskWindow(s: seq<bv8>, nout: nat, hwirq: nat, masked: bool, code: bv8): (r: seq<bv8>)
    requires IsWindow(s) && nout <= hwirq < nout + MaxLines
    ensures IsWindow(r)
  {
    var d := IrqToData(nout, hwirq);
    ToBankAddress(d.offset, EventCfg);
    ToBankAddress(d.offset, EventSts);
    var a := BankReg(d.bank, EventCfg);
    var s1 := EnableWindow(s, false);
    var w := Word(s1[a], s1[a + 1]);
    var s2 := WordWindow(s, a, MaskedWord(w, d.bit, masked, code));
    StatusOr(s2, BankReg(d.bank, EventSts), d.bit)
  }

  /** The event-config word irq_set_mask writes back. */
  function MaskedWord(w: bv16, bit: bv8, masked: bool, code: bv8): bv16
    requires bit < 8
  {
    if masked then ClearSlot(w, bit) else OrSlot(w, bit, code as bv16)
  }

  /** The read-modify-write that ORs a line's bit into a status byte. */
  function StatusOr(s: seq<bv8>, st: nat, bit: bv8): (r: seq<bv8>)
    requires st < |s| && bit < 8
    ensures |r| == |s|
  {
    s[st := s[st] | (1 << bit)]
  }

  /** Where irq_set_mask's writes land: bank i's word becomes the updated
      word, IOXCTS ends enabled, the line's status bit is ORed in, and no
      other bank's word or status byte, data byte or configuration byte
      changes. */
  lemma MaskWindowLayout(s: seq<bv8>, nout: nat, hwirq: nat, masked: bool, code: bv8)
    requires IsWindow(s) && nout <= hwirq < nout + MaxLines
    ensures var d := IrqToData(nout, hwirq);
      var i := d.offset / LinesPerBank;
      var r := MaskWindow(s, nout, hwirq, masked, code);
      && i < NumBanks
      && EventWord(r, i) == MaskedWord(EventWord(s, i), d.bit, masked, code)
      && (forall k :: 0 <= k < NumBanks && k != i ==> EventWord(r, k) == EventWord(s, k))
      && r[IoxCts] == EnableByte(s[IoxCts], true)
      && r[Addr(i, EventSts)] == s[Addr(i, EventSts)] | (1 << d.bit)
      && (forall k :: 0 <= k < NumBanks && k != i ==> r[Addr(k, EventSts)] == s[Addr(k, EventSts)])
      && (forall k :: (0 <= k < 0x10 || IoxCfg1 <= k < WindowSize) ==> r[k] == s[k])
  {
    var d := IrqToData(nout, hwirq);
    var i := d.offset / LinesPerBank;
    ToBankAddress(d.offset, EventCfg);
    ToBankAddress(d.offset, EventSts);
    var w' := MaskedWord(EventWord(s, i), d.bit, masked, code);
    WordWindowEffect(s, i, w');
    var s2 := WordWindow(s, Addr(i, EventCfg), w');
    assert MaskWindow(s, nout, hwirq, masked, code) == StatusOr(s2, Addr(i, EventSts), d.bit);
  }

  /** What irq_set_mask does to the line's slots: the line's slot becomes
      0 (mask) or gains the stored code (unmask), and its sibling slots keep
      their values. */
  lemma MaskWindowEffect(s: seq<bv8>, nout: nat, hwirq: nat, masked: bool, code: bv8)
    requires IsWindow(s) && nout <= hwirq < nout + MaxLines && code <= 3
    ensures var d := IrqToData(nout, hwirq);
      var i := d.offset / LinesPerBank;
      var r := MaskWindow(s, nout, hwirq, masked, code);
      && i < NumBanks
      && Slot(EventWord(r, i), d.bit) == (if masked then 0 else Slot(EventWord(s, i), d.bit) | code as bv16)
      && (forall j: bv8 :: j < 8 && j != d.bit ==> Slot(EventWord(r, i), j) == Slot(EventWord(s, i), j))
  {
    var d := IrqToData(nout, hwirq);
    MaskWindowLayout(s, nout, hwirq, masked, code);
    var w := EventWord(s, d.offset / LinesPerBank);
    if masked {
      ClearSlotKeeps(w, d.bit);
    } else {
      OrSlotKeeps(w, d.bit, code as bv16);
    }
  }

  /** Masking and then unmasking a line leaves exactly its stored code in
      its slot, whatever stale code the slot held before. */
  lemma UnmaskAfterMask(s: seq<bv8>, nout: nat, hwirq: nat, code: bv8)
    requires IsWindow(s) && nout <= hwirq < nout + MaxLines && code <= 3
    ensures var d := IrqToData(nout, hwirq);
      var r := MaskWindow(MaskWindow(s, nout, hwirq, true, code), nout, hwirq, false, code);
      Slot(EventWord(r, d.offset / LinesPerBank), d.bit) == code as bv16
  {
    var s1 := MaskWindow(s, nout, hwirq, true, code);
    MaskWindowEffect(s, nout, hwirq, true, code);
    MaskWindowEffect(s1, nout, hwirq, false, code);
  }

  /** The window after npcm_sgpio_irq_ack: the line's status bit written
      alone. */
  function AckWindow(s: seq<bv8>, nout: nat, hwirq: nat): (r: seq<bv8>)
    requires IsWindow(s) && nout <= hwirq < nout + MaxLines
    ensures IsWindow(r)
  {
    var d := IrqToData(nout, hwirq);
    ToBankAddress(d.offset, EventSts);
    s[BankReg(d.bank, EventSts) := 1 << d.bit]
  }

  /** The acknowledge write has exactly one bit set, the line's own, and
      lands on the line's status byte and nowhere else. */
  lemma AckWindowEffect(s: seq<bv8>, nout: nat, hwirq: nat)
    requires IsWindow(s) && nout <= hwirq < nout + MaxLines
    ensures var d := IrqToData(nout, hwirq);
      var st := Addr(d.offset / LinesPerBank, EventSts);
      var r := AckWindow(s, nout, hwirq);
      && st < WindowSize
      && (forall j: bv8 :: j < 8 ==> (BitOf(r[st], j) == 1 <==> j == d.bit))
      && (forall k :: 0 <= k < WindowSize && k != st ==> r[k] == s[k])
  {
    var d := IrqToData(nout, hwirq);
    ToBankAddress(d.offset, EventSts);
    var st := Addr(d.offset / LinesPerBank, EventSts);
    var r := AckWindow(s, nout, hwirq);
    forall j: bv8 | j < 8
      ensures BitOf(r[st], j) == 1 <==> j == d.bit
    {
      OneHot(d.bit, j);
    }
  }

  lemma OneHot(bit: bv8, j: bv8)
    requires bit < 8 && j < 8
    ensures (1 as bv8 << bit) & (1 as bv8 << j) != 0 <==> j == bit
  {
  }

  /** The window after npcm_sgpio_set_type has chosen `code`: the code
      ORed into the line's slot inside the disable/enable bracket. */
  function TypeWindow(s: seq<bv8>, nout: nat, hwirq: nat, code: bv8): (r: seq<bv8>)
    requires IsWindow(s) && nout <= hwirq < nout + MaxLines
    ensures IsWindow(r)
  {
    var d := IrqToData(nout, hwirq);
    ToBankAddress(d.offset, EventCfg);
    var a := BankReg(d.bank, EventCfg);
    var s1 := EnableWindow(s, false);
    var w := Word(s1[a], s1[a + 1]);
    WordWindow(s, a, OrSlot(w, d.bit, code as bv16))
  }

  /** set_type ORs the code into the line's slot, keeps the sibling slots
      and every other bank's word, leaves IOXCTS enabled, and changes no
      data or status byte. */
  lemma TypeWindowEffect(s: seq<bv8>, nout: nat, hwirq: nat, code: bv8)
    requires IsWindow(s) && nout <= hwirq < nout + MaxLines && code <= 3
    ensures var d := IrqToData(nout, hwirq);
      var i := d.offset / LinesPerBank;
      var r := TypeWindow(s, nout, hwirq, code);
      && i < NumBanks
      && Slot(EventWord(r, i), d.bit) == Slot(EventWord(s, i), d.bit) | code as bv16
      && (forall j: bv8 :: j < 8 && j != d.bit ==> Slot(EventWord(r, i), j) == Slot(EventWord(s, i), j))
      && (forall k :: 0 <= k < NumBanks && k != i ==> EventWord(r, k) == EventWord(s, k))
      && r[IoxCts] == EnableByte(s[IoxCts], true)
      && (forall k :: (0 <= k < 0x10 || 0x20 <= k < IoxCts || IoxCfg1 <= k < WindowSize) ==> r[k] == s[k])
  {
    var d := IrqToData(nout, hwirq);
    var i := d.offset / LinesPerBank;
    ToBankAddress(d.offset, EventCfg);
    var w' := OrSlot(EventWord(s, i), d.bit, code as bv16);
    OrSlotKeeps(EventWord(s, i), d.bit, code as bv16);
    WordWindowEffect(s, i, w');
    assert TypeWindow(s, nout, hwirq, code) == WordWindow(s, Addr(i, EventCfg), w');
  }

  /** Because set_type ORs rather than replaces, asking for a rising edge
      and then for a falling edge, with no mask in between, leaves the slot
      detecting both edges. */
  lemma RetypeAccumulates(s: seq<bv8>, nout: nat, hwirq: nat)
    requires IsWindow(s) && nout <= hwirq < nout + MaxLines
    requires var d := IrqToData(nout, hwirq); Slot(EventWord(s, d.offset / LinesPerBank), d.bit) == 0
    ensures var d := IrqToData(nout, hwirq);
      var r := TypeWindow(TypeWindow(s, nout, hwirq, EvCfgRising), nout, hwirq, EvCfgFalling);
      Slot(EventWord(r, d.offset / LinesPerBank), d.bit) == EvCfgBoth as bv16
  {
    TypeWindowEffect(s, nout, hwirq, EvCfgRising);
    TypeWindowEffect(TypeWindow(s, nout, hwirq, EvCfgRising), nout, hwirq, EvCfgFalling);
  }

  // ---------------------------------------------------------------------
  // Interrupt reset in npcm_sgpio_setup_irqs
  // ---------------------------------------------------------------------

  /** The window after the reset loop has run over banks 0 .. n - 1: each
      such bank's event-config word zeroed and its status byte written
      0xff. */
  function ResetBanks(s: seq<bv8>, n: nat): (r: seq<bv8>)
    requires IsWindow(s) && n <= NumBanks
    ensures IsWindow(r)
  {
    if n == 0 then s
    else
      BankTableLayout(n - 1, EventCfg);
      BankTableLayout(n - 1, EventSts);
      var r := PutWord(ResetBanks(s, n - 1), BankReg(Banks[n - 1], EventCfg), 0x0000);
      r[BankReg(Banks[n - 1], EventSts) := 0xFF]
  }

  /** After the reset loop over the first n banks those banks have no
      edge selected on any line and all status bits written, the remaining
      banks are untouched, and so are the data and control bytes. */
  lemma {:induction false} ResetBanksEffect(s: seq<bv8>, n: nat)
    requires IsWindow(s) && n <= NumBanks
    ensures forall k :: 0 <= k < n ==> EventWord(ResetBanks(s, n), k) == 0
    ensures forall k :: 0 <= k < n ==> ResetBanks(s, n)[Addr(k, EventSts)] == 0xFF
    ensures forall k :: n <= k < NumBanks ==>
      && EventWord(ResetBanks(s, n), k) == EventWord(s, k)
      && ResetBanks(s, n)[Addr(k, EventSts)] == s[Addr(k, EventSts)]
    ensures forall a :: (0 <= a < 0x10 || IoxCts <= a < WindowSize) ==> ResetBanks(s, n)[a] == s[a]
  {
    if n > 0 {
      ResetBanksEffect(s, n - 1);
      BankTableLayout(n - 1, EventCfg);
      BankTableLayout(n - 1, EventSts);
      var p := ResetBanks(s, n - 1);
      var r := ResetBanks(s, n);
      var a := Addr(n - 1, EventCfg);
      assert r[a] == 0 && r[a + 1] == 0;
      assert EventWord(r, n - 1) == 0;
      forall k | 0 <= k < NumBanks && k != n - 1
        ensures EventWord(r, k) == EventWord(p, k)
        ensures r[Addr(k, EventSts)] == p[Addr(k, EventSts)]
      {
        assert r[Addr(k, EventCfg)] == p[Addr(k, EventCfg)];
        assert r[Addr(k, EventCfg) + 1] == p[Addr(k, EventCfg) + 1];
      }
    }
  }

  /** What setup_irqs leaves behind: interface disabled and every bank
      reset. */
  function ResetWindow(s: seq<bv8>): (r: seq<bv8>)
    requires IsWindow(s)
    ensures IsWindow(r)
  {
    ResetBanks(EnableWindow(s, false), NumBanks)
  }

  /** After setup_irqs no line of any bank has an edge selected, every
      status byte was written all ones, IOXCTS is the disabled form of its
      old value (periodic read mode, other bits kept), and the data and
      remaining control bytes keep their values. */
  lemma ResetWindowEffect(s: seq<bv8>)
    requires IsWindow(s)
    ensures forall k, j: bv8 :: 0 <= k < NumBanks && j < 8 ==> Slot(EventWord(ResetWindow(s), k), j) == 0
    ensures forall k :: 0 <= k < NumBanks ==> ResetWindow(s)[Addr(k, EventSts)] == 0xFF
    ensures ResetWindow(s)[IoxCts] == EnableByte(s[IoxCts], false)
    ensures ResetWindow(s)[IoxCts] & IoxCtsIfEn == 0
    ensures forall a :: (0 <= a < 0x10 || IoxCts < a < WindowSize) ==> ResetWindow(s)[a] == s[a]
  {
    ResetBanksEffect(EnableWindow(s, false), NumBanks);
    forall k, j: bv8 | 0 <= k < NumBanks && j < 8
      ensures Slot(EventWord(ResetWindow(s), k), j) == 0
    {
      ZeroSlot(j);
    }
  }

  lemma ZeroSlot(j: bv8)
    requires j < 8
    ensures Slot(0, j) == 0
  {
  }

  // ---------------------------------------------------------------------
  // Valid mask of the interrupt domain
  // ---------------------------------------------------------------------

  /** npcm_sgpio_irq_init_valid_mask on gpiolib's bitmap: the nin bits from
      nout on are set, the first nout cleared, later bits left alone. */
  function IrqValidMask(nin: nat, nout: nat, mask: seq<bool>): (r: seq<bool>)
    requires nout + nin <= |mask|
    ensures |r| == |mask|
    ensures forall o :: 0 <= o < nout + nin ==> (r[o] <==> Direction(nout, o) == 1)
    ensures forall o :: nout + nin <= o < |mask| ==> r[o] == mask[o]
  {
    seq(|mask|, o requires 0 <= o < |mask| => if o < nout then false else if o < nout + nin then true else mask[o])
  }
}
