/**
 * The controller record (struct npcm_sgpio) and the driver's entry points
 * as methods on it.  Each method is proved to leave the register window
 * exactly as the matching function of SgpioWindow describes, so the lemmas
 * proved there about those windows are what the methods promise.
 */
module SgpioController {
  import opened Wrappers
  import opened SgpioRegs
  import opened SgpioClock
  import opened SgpioIrq
  import opened SgpioWindow

  class Controller {
    /** The register window at the controller's base address. */
    const regs: array<bv8>
    /** int_type[]: the event code set_type chose for each input line. */
    const intType: array<bv8>
    /** nin_sgpio and nout_sgpio: the numbers of input and output lines. */
    const nin: nat
    const nout: nat
    /** in_port and out_port: the port counts programmed into IOXCFG2. */
    var inPort: nat
    var outPort: nat
    /** The parent interrupt of the chained handler. */
    var irq: int
    /** The flow handler installed for each input line's interrupt. */
    ghost var flow: seq<FlowHandler>

    ghost predicate Valid()
      reads this, intType
    {
      && regs.Length == WindowSize
      && intType.Length == MaxLines
      && regs != intType
      && nin <= MaxLines && nout <= MaxLines
      && |flow| == MaxLines
      && forall k :: 0 <= k < MaxLines ==> intType[k] <= 3
    }

    /** A controller whose window holds `window`, with int_type zeroed and
        every line on the framework's default handler, as probe leaves it
        before the first set_type. */
    constructor (nin: nat, nout: nat, window: seq<bv8>)
      requires nin <= MaxLines && nout <= MaxLines && IsWindow(window)
      ensures Valid() && fresh(regs) && fresh(intType)
      ensures this.nin == nin && this.nout == nout
      ensures regs[..] == window
      ensures forall k :: 0 <= k < MaxLines ==> intType[k] == 0
      ensures flow == seq(MaxLines, _ => BadIrq)
      ensures inPort == 0 && outPort == 0 && irq == 0
    {
      this.nin := nin;
      this.nout := nout;
      regs := new bv8[WindowSize](k => if 0 <= k < |window| then window[k] else 0);
      intType := new bv8[MaxLines](_ => 0);
      inPort := 0;
      outPort := 0;
      irq := 0;
      flow := seq(MaxLines, _ => BadIrq);
    }

    /** iowrite16 on the window. */
    method Write16(a: nat, w: bv16)
      requires Valid() && a + 1 < WindowSize
      modifies regs
      ensures regs[..] == PutWord(old(regs[..]), a, w)
    {
      regs[a] := LowByte(w);
      regs[a + 1] := HighByte(w);
    }

    // -------------------------------------------------------------------
    // Line I/O
    // -------------------------------------------------------------------

    /** npcm_sgpio_set: read-modify-write of one bit of the line's
        write-data byte. */
    method Set(offset: nat, val: bv32)
      requires Valid() && offset < MaxLines
      modifies regs
      ensures regs[..] == SetWindow(old(regs[..]), offset, val)
      ensures (val == 0 || val == 1) && offset < nout ==> GetValue(regs[..], nout, offset) == val as bv8
    {
      ghost var s := regs[..];
      ToBankAddress(offset, WriteData);
      var addr := BankReg(ToBank(offset), WriteData);
      var reg := regs[addr];
      reg := LineWrite(reg, BitIndex(offset), val);
      regs[addr] := reg;
      if (val == 0 || val == 1) && offset < nout {
        SetThenGet(s, nout, offset, val);
      }
    }

    /** npcm_sgpio_get. */
    method Get(offset: nat) returns (v: bv8)
      requires Valid() && offset < nout + MaxLines
      ensures v == GetValue(regs[..], nout, offset)
    {
      ghost var s := regs[..];
      var dir := Direction(nout, offset);
      if dir == 0 {
        ToBankAddress(offset, WriteData);
        var a := BankReg(ToBank(offset), WriteData);
        var reg := regs[a];
        assert reg == s[a];
        v := BitOf(reg, BitIndex(offset));
        assert v == GetValue(s, nout, offset);
      } else {
        var o := offset - nout;
        ToBankAddress(o, ReadData);
        var a := BankReg(ToBank(o), ReadData);
        var reg := regs[a];
        assert reg == s[a];
        v := BitOf(reg, BitIndex(o));
        GetValueInput(s, nout, offset);
        assert a == BankReg(ToBank(offset - nout), ReadData);
        assert BitIndex(o) == BitIndex(offset - nout);
        assert v == BitOf(s[BankReg(ToBank(offset - nout), ReadData)], BitIndex(offset - nout));
        assert v == GetValue(s, nout, offset);
      }
    }

    /** npcm_sgpio_dir_out: only output lines can be driven; driving one
        sets its value. */
    method DirOut(offset: nat, val: bv32) returns (rc: int)
      requires Valid()
      modifies regs
      ensures offset < nout ==> rc == 0 && regs[..] == SetWindow(old(regs[..]), offset, val)
      ensures offset >= nout ==> rc == -EINVAL && regs[..] == old(regs[..])
    {
      if offset < nout {
        Set(offset, val);
        return 0;
      }
      return -EINVAL;
    }

    // -------------------------------------------------------------------
    // Controller setup
    // -------------------------------------------------------------------

    /** npcm_sgpio_setup_enable. */
    method SetupEnable(enable: bool)
      requires Valid()
      modifies regs
      ensures regs[..] == EnableWindow(old(regs[..]), enable)
    {
      var reg := regs[IoxCts];
      reg := reg & !IoxCtsRdMode;
      reg := reg | IoxCtsRdModePeriodic;
      if enable {
        reg := reg | IoxCtsIfEn;
        regs[IoxCts] := reg;
      } else {
        reg := reg & !IoxCtsIfEn;
        regs[IoxCts] := reg;
      }
    }

    /** npcm_sgpio_init_port.  `readback` is what the controller returns
        when IOXCFG2 is read back after the write. */
    method InitPort(readback: bv8) returns (rc: int)
      requires Valid()
      modifies this, regs
      ensures Valid()
      ensures inPort == PortCount(nin) && outPort == PortCount(nout)
      ensures irq == old(irq) && flow == old(flow)
      ensures regs[..] == PortWindow(old(regs[..]), nin, nout)
      ensures rc == 0 || rc == -EINVAL
      ensures rc == 0 <==> readback == PortSetting(nin, nout)
    {
      var inP := nin / LinesPerBank;
      if nin % LinesPerBank > 0 {
        inP := inP + 1;
      }
      var outP := nout / LinesPerBank;
      if nout % LinesPerBank > 0 {
        outP := outP + 1;
      }
      assert inP == PortCount(nin) && outP == PortCount(nout);
      inPort := inP;
      outPort := outP;
      var setPort := (((outP as bv8) & 0xF) << 4) | ((inP as bv8) & 0xF);
      assert setPort == PortSetting(nin, nout);
      regs[IoxCfg2] := setPort;
      var reg := readback;
      if reg == setPort {
        rc := 0;
      } else {
        rc := -EINVAL;
      }
    }

    /** npcm_sgpio_setup_clk with `apb` the APB clock rate: programs the
        table entry SelectedIndex picks, or returns -EINVAL without writing
        when it picks none. */
    method SetupClk(apb: nat, cfg: ClkCfg, freq: nat) returns (rc: int)
      requires Valid() && WellFormed(cfg) && apb < U64 && freq < U32
      modifies regs
      ensures SelectedIndex(apb, freq, cfg).Some? ==>
        rc == 0 && regs[..] == ClkWindow(old(regs[..]), cfg, SelectedIndex(apb, freq, cfg).value)
      ensures SelectedIndex(apb, freq, cfg).None? ==> rc == -EINVAL && regs[..] == old(regs[..])
    {
      var tmp := regs[IoxCfg1] & !IoxCfg1SftClk;
      var i := 0;
      while i < cfg.cfgOpt
        invariant 0 <= i <= cfg.cfgOpt
        invariant regs[..] == old(regs[..])
        invariant FirstOvershoot(apb, freq, cfg, 0) == FirstOvershoot(apb, freq, cfg, i)
        invariant i == cfg.cfgOpt && i > 0 ==> freq <= Rate(apb, cfg, i - 1)
      {
        var val := (apb / cfg.sftClk[i]) % U32;
        if freq < val && i != 0 {
          regs[IoxCfg1] := cfg.clkSel[i - 1] | tmp;
          return 0;
        } else if i == cfg.cfgOpt - 1 && freq > val {
          regs[IoxCfg1] := cfg.clkSel[i] | tmp;
          return 0;
        }
        i := i + 1;
      }
      return -EINVAL;
    }

    // -------------------------------------------------------------------
    // Interrupt chip
    // -------------------------------------------------------------------

    /** npcm_sgpio_irq_set_mask: clears (masked) or restores from int_type
        (unmasked) the line's event-config slot inside the disable/enable
        bracket, then ORs the line's bit into its status byte. */
    method IrqSetMask(hwirq: nat, masked: bool)
      requires Valid() && nout <= hwirq < nout + MaxLines
      modifies regs
      ensures regs[..] == MaskWindow(old(regs[..]), nout, hwirq, masked, intType[hwirq - nout])
    {
      ghost var s0 := regs[..];
      var d := IrqToData(nout, hwirq);
      ToBankAddress(d.offset, EventCfg);
      ToBankAddress(d.offset, EventSts);
      var addr := BankReg(d.bank, EventCfg);
      SetupEnable(false);
      var reg := Word(regs[addr], regs[addr + 1]);
      ghost var w := reg;
      if masked {
        reg := ClearSlot(reg, d.bit);
      } else {
        reg := OrSlot(reg, d.bit, intType[d.offset] as bv16);
      }
      assert reg == MaskedWord(w, d.bit, masked, intType[d.offset]);
      Write16(addr, reg);
      SetupEnable(true);
      assert regs[..] == WordWindow(s0, addr, reg);
      addr := BankReg(d.bank, EventSts);
      var sts := regs[addr];
      sts := sts | (1 << d.bit);
      regs[addr] := sts;
    }

    /** npcm_sgpio_irq_mask. */
    method IrqMask(hwirq: nat)
      requires Valid() && nout <= hwirq < nout + MaxLines
      modifies regs
      ensures regs[..] == MaskWindow(old(regs[..]), nout, hwirq, true, intType[hwirq - nout])
    {
      IrqSetMask(hwirq, true);
    }

    /** npcm_sgpio_irq_unmask. */
    method IrqUnmask(hwirq: nat)
      requires Valid() && nout <= hwirq < nout + MaxLines
      modifies regs
      ensures regs[..] == MaskWindow(old(regs[..]), nout, hwirq, false, intType[hwirq - nout])
    {
      IrqSetMask(hwirq, false);
    }

    /** npcm_sgpio_irq_ack: writes the line's bit alone to its status
        byte. */
    method IrqAck(hwirq: nat)
      requires Valid() && nout <= hwirq < nout + MaxLines
      modifies regs
      ensures regs[..] == AckWindow(old(regs[..]), nout, hwirq)
    {
      var d := IrqToData(nout, hwirq);
      ToBankAddress(d.offset, EventSts);
      regs[BankReg(d.bank, EventSts)] := 1 << d.bit;
    }

    /** npcm_sgpio_set_type: an unsupported type is refused with nothing
        changed; otherwise the code is stored in int_type, ORed into the
        line's slot, and the matching flow handler installed. */
    method SetType(hwirq: nat, irqType: bv32) returns (rc: int)
      requires Valid() && nout <= hwirq < nout + MaxLines
      modifies this, regs, intType
      ensures Valid()
      ensures inPort == old(inPort) && outPort == old(outPort) && irq == old(irq)
      ensures TypeCode(irqType).None? ==>
        && rc == -EINVAL
        && regs[..] == old(regs[..]) && intType[..] == old(intType[..]) && flow == old(flow)
      ensures TypeCode(irqType).Some? ==>
        var t := TypeCode(irqType).value;
        && rc == 0
        && intType[..] == old(intType[..])[hwirq - nout := t.code]
        && flow == old(flow)[hwirq - nout := t.flow]
        && regs[..] == TypeWindow(old(regs[..]), nout, hwirq, t.code)
    {
      ghost var s0 := regs[..];
      var d := IrqToData(nout, hwirq);
      var t := TypeCode(irqType);
      if t.None? {
        return -EINVAL;
      }
      var code := t.value.code;
      intType[d.offset] := code;
      SetupEnable(false);
      ToBankAddress(d.offset, EventCfg);
      var addr := BankReg(d.bank, EventCfg);
      var reg := Word(regs[addr], regs[addr + 1]);
      reg := OrSlot(reg, d.bit, code as bv16);
      Write16(addr, reg);
      SetupEnable(true);
      assert regs[..] == WordWindow(s0, addr, reg);
      flow := flow[d.offset := t.value.flow];
      return 0;
    }

    /** npcm_sgpio_irq_handler: scans the status bytes of banks 0 to 7 and
        delivers, in that order, the interrupt number of every set bit. */
    method IrqHandler() returns (delivered: seq<nat>)
      requires Valid()
      ensures delivered == Dispatch(nout, regs[Addr(0, EventSts)..Addr(NumBanks, EventSts)])
    {
      ghost var sts := regs[Addr(0, EventSts)..Addr(NumBanks, EventSts)];
      delivered := [];
      var i := 0;
      while i < NumBanks
        invariant 0 <= i <= NumBanks
        invariant delivered == Dispatch(nout, sts[..i])
      {
        BankTableLayout(i, EventSts);
        var reg := regs[BankReg(Banks[i], EventSts)];
        assert reg == sts[i];
        var hits := SetBits(i * LinesPerBank + nout, reg);
        delivered := delivered + hits;
        assert sts[..i + 1][..i] == sts[..i];
        i := i + 1;
      }
      assert sts[..NumBanks] == sts;
    }

    /** The for_each_set_bit loop over one bank's status byte: the numbers
        `first + j` of its set bits, in ascending order. */
    static method SetBits(first: nat, reg: bv8) returns (hits: seq<nat>)
      ensures hits == BankHits(first, reg, LinesPerBank)
    {
      hits := [];
      var j := 0;
      while j < LinesPerBank
        invariant 0 <= j <= LinesPerBank
        invariant hits == BankHits(first, reg, j)
      {
        if StatusBit(reg, j) {
          hits := hits + [first + j];
        }
        j := j + 1;
      }
    }

    /** The reset part of npcm_sgpio_setup_irqs.  `parentIrq` is what
        platform_get_irq returned; a negative value is passed back. */
    method SetupIrqs(parentIrq: int) returns (rc: int)
      requires Valid()
      modifies this, regs
      ensures Valid()
      ensures inPort == old(inPort) && outPort == old(outPort) && flow == old(flow)
      ensures parentIrq < 0 ==> rc == parentIrq && irq == old(irq) && regs[..] == old(regs[..])
      ensures parentIrq >= 0 ==> rc == 0 && irq == parentIrq && regs[..] == ResetWindow(old(regs[..]))
    {
      if parentIrq < 0 {
        return parentIrq;
      }
      irq := parentIrq;
      SetupEnable(false);
      var i := 0;
      while i < NumBanks
        invariant 0 <= i <= NumBanks
        invariant regs[..] == ResetBanks(EnableWindow(old(regs[..]), false), i)
        modifies regs
      {
        BankTableLayout(i, EventCfg);
        BankTableLayout(i, EventSts);
        Write16(BankReg(Banks[i], EventCfg), 0x0000);
        regs[BankReg(Banks[i], EventSts)] := 0xFF;
        i := i + 1;
      }
      return 0;
    }
  }
}
