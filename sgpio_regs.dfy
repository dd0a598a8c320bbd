/** Option datatype used across the model. */
module Wrappers {
  datatype Option<+T> = None | Some(value: T)
}

/**
 * The register window of the Nuvoton NPCM serial-GPIO controller: the bank
 * table, the address map, and the byte, word and bit-field arithmetic the
 * driver's read-modify-write sequences are built from.  Addresses are offsets
 * from the window's base; the base itself is platform glue.
 */
module SgpioRegs {

  /** MAX_NR_HW_SGPIO: at most 64 output and 64 input lines. */
  const MaxLines: nat := 64
  const NumBanks: nat := 8
  const LinesPerBank: nat := 8

  /** The driver touches base + 0x00 .. base + 0x2B. */
  const WindowSize: nat := 0x2C

  /** IOXCTS: bit 7 enables the interface, bits 1-2 select the read mode. */
  const IoxCts: nat := 0x28
  /** IOXCFG1: bits 0-3 select the shift clock, bits 4-5 are polarities. */
  const IoxCfg1: nat := 0x2A
  /** IOXCFG2: bits 0-3 input port count, bits 4-7 output port count. */
  const IoxCfg2: nat := 0x2B

  const IoxCtsIfEn: bv8 := 0x80
  const IoxCtsRdMode: bv8 := 0x06
  const IoxCtsRdModePeriodic: bv8 := 0x04
  const IoxCfg1SftClk: bv8 := 0x0F

  /** IXOEVCFG_*: the 2-bit event code of one line in an event-config word
      (IXOEVCFG_MASK is 0x3; it is written as a literal in the bit-field
      functions below). */
  const EvCfgBoth: bv8 := 0x3
  const EvCfgFalling: bv8 := 0x2
  const EvCfgRising: bv8 := 0x1

  /** The kernel's EINVAL; the driver returns its negation. */
  const EINVAL: int := 22

  // ---------------------------------------------------------------------
  // Bank table and address map
  // ---------------------------------------------------------------------

  datatype RegKind = ReadData | WriteData | EventCfg | EventSts

  /** One entry of npcm_sgpio_banks: the offsets of a bank's four registers. */
  datatype Bank = Bank(rdataReg: nat, wdataReg: nat, eventConfig: nat, eventStatus: nat)

  const Banks: seq<Bank> := [
    Bank(0x08, 0x00, 0x10, 0x20),
    Bank(0x09, 0x01, 0x12, 0x21),
    Bank(0x0a, 0x02, 0x14, 0x22),
    Bank(0x0b, 0x03, 0x16, 0x23),
    Bank(0x0c, 0x04, 0x18, 0x24),
    Bank(0x0d, 0x05, 0x1a, 0x25),
    Bank(0x0e, 0x06, 0x1c, 0x26),
    Bank(0x0f, 0x07, 0x1e, 0x27)
  ]

  /** bank_reg: the address of one of a bank's registers. */
  function BankReg(bank: Bank, kind: RegKind): nat
  {
    match kind
    case ReadData => bank.rdataReg
    case WriteData => bank.wdataReg
    case EventCfg => bank.eventConfig
    case EventSts => bank.eventStatus
  }

  /** to_bank: the bank holding line `offset` (GPIO_BANK). */
  function ToBank(offset: nat): Bank
    requires offset < MaxLines
  {
    Banks[offset / LinesPerBank]
  }

  /** The register layout in closed form: bank i's write-data byte at i, its
      read-data byte at 8 + i, its event-config word at 0x10 + 2i and its
      event-status byte at 0x20 + i. */
  function Addr(i: nat, kind: RegKind): nat
  {
    match kind
    case WriteData => i
    case ReadData => NumBanks + i
    case EventCfg => 0x10 + 2 * i
    case EventSts => 0x20 + i
  }

  /** Number of bytes a register occupies: event-config is a 16-bit word. */
  function Width(kind: RegKind): nat
  {
    if kind == EventCfg then 2 else 1
  }

  /** The bank table follows the closed-form layout. */
  lemma BankTableLayout(i: nat, kind: RegKind)
    requires i < NumBanks
    ensures BankReg(Banks[i], kind) == Addr(i, kind)
  {
    if i == 0 {
    } else if i == 1 {
    } else if i == 2 {
    } else if i == 3 {
    } else if i == 4 {
    } else if i == 5 {
    } else if i == 6 {
    } else {
      assert i == 7;
    }
  }

  /** Line `offset` lives in bank offset / 8 at bit offset % 8, and every
      register of that bank is where the closed-form layout says. */
  lemma ToBankAddress(offset: nat, kind: RegKind)
    requires offset < MaxLines
    ensures offset / LinesPerBank < NumBanks
    ensures BankReg(ToBank(offset), kind) == Addr(offset / LinesPerBank, kind)
  {
    BankTableLayout(offset / LinesPerBank, kind);
  }

  /** No two registers of the bank table overlap, and all of them lie below
      the control registers at 0x28. */
  lemma BankRegistersDisjoint(i: nat, k: RegKind, a: nat, j: nat, l: RegKind, b: nat)
    requires i < NumBanks && j < NumBanks
    requires a < Width(k) && b < Width(l)
    ensures BankReg(Banks[i], k) + Width(k) <= IoxCts
    ensures BankReg(Banks[i], k) + a == BankReg(Banks[j], l) + b ==> i == j && k == l && a == b
  {
    BankTableLayout(i, k);
    BankTableLayout(j, l);
  }

  // ---------------------------------------------------------------------
  // Bits of a data byte
  // ---------------------------------------------------------------------

  /** GPIO_BIT: the position of line `offset` inside its bank, as the shift
      amount the driver uses. */
  function BitIndex(offset: nat): (b: bv8)
    ensures b < 8 && b as int == offset % LinesPerBank
  {
    (offset % LinesPerBank) as bv8
  }

  /** Bit n of a byte as the driver returns it: (b >> n) & 1. */
  function BitOf(b: bv8, n: bv8): (v: bv8)
    requires n < 8
    ensures v == 0 || v == 1
    ensures v == 1 <==> b & (1 << n) != 0
  {
    (b >> n) & 1
  }

  /** The byte npcm_sgpio_set writes back into a write-data register: for a
      non-zero value, the old byte ORed with `val << bit` cut to 8 bits; for
      zero, the old byte with bit `bit` cleared.  Only the values 0 and 1
      give a single-bit update. */
  function LineWrite(b: bv8, bit: bv8, val: bv32): (r: bv8)
    requires bit < 8
    ensures val == 0 || val == 1 ==> BitOf(r, bit) == val as bv8
    ensures val == 0 || val == 1 ==>
      forall j: bv8 :: j < 8 && j != bit ==> BitOf(r, j) == BitOf(b, j)
  {
    if val != 0 then
      if val == 1 then
        OneShifted(bit);
        SetBitHere(b, bit);
        b | (((val << bit) & 0xFF) as bv8)
      else
        b | (((val << bit) & 0xFF) as bv8)
    else
      ClearBitHere(b, bit);
      b & !(1 << bit)
  }

  lemma OneShifted(bit: bv8)
    requires bit < 8
    ensures (((1 as bv32) << bit) & 0xFF) as bv8 == 1 << bit
  {
  }

  lemma SetBitHere(b: bv8, bit: bv8)
    requires bit < 8
    ensures BitOf(b | (1 << bit), bit) == 1
    ensures forall j: bv8 :: j < 8 && j != bit ==> BitOf(b | (1 << bit), j) == BitOf(b, j)
  {
    forall j: bv8 | j < 8 && j != bit
      ensures BitOf(b | (1 << bit), j) == BitOf(b, j)
    {
      OtherBitOr(b, bit, j);
    }
  }

  lemma OtherBitOr(b: bv8, bit: bv8, j: bv8)
    requires bit < 8 && j < 8 && j != bit
    ensures (b | (1 << bit)) & (1 << j) == b & (1 << j)
  {
  }

  lemma ClearBitHere(b: bv8, bit: bv8)
    requires bit < 8
    ensures BitOf(b & !(1 << bit), bit) == 0
    ensures forall j: bv8 :: j < 8 && j != bit ==> BitOf(b & !(1 << bit), j) == BitOf(b, j)
  {
    forall j: bv8 | j < 8 && j != bit
      ensures BitOf(b & !(1 << bit), j) == BitOf(b, j)
    {
      OtherBitAndNot(b, bit, j);
    }
  }

  lemma OtherBitAndNot(b: bv8, bit: bv8, j: bv8)
    requires bit < 8 && j < 8 && j != bit
    ensures (b & !(1 << bit)) & (1 << j) == b & (1 << j)
  {
  }

  // ---------------------------------------------------------------------
  // 16-bit words on a little-endian bus
  // ---------------------------------------------------------------------

  /** ioread16: the word formed by the bytes at addr and addr + 1. */
  function Word(lo: bv8, hi: bv8): bv16
  {
    (lo as bv16) | ((hi as bv16) << 8)
  }

  function LowByte(w: bv16): bv8
  {
    (w & 0xFF) as bv8
  }

  function HighByte(w: bv16): bv8
  {
    (w >> 8) as bv8
  }

  /** iowrite16 followed by ioread16 gives the word back. */
  lemma WordRoundTrip(w: bv16)
    ensures Word(LowByte(w), HighByte(w)) == w
  {
  }

  // ---------------------------------------------------------------------
  // 2-bit event-config slots
  // ---------------------------------------------------------------------

  /** The 2-bit event code of line `bit` of a bank in its event-config word. */
  function Slot(w: bv16, bit: bv8): (s: bv16)
    requires bit < 8
    ensures s <= 3
  {
    (w >> (2 * bit)) & 0x3
  }

  /** The bits of the slot of line `bit`: IXOEVCFG_MASK << (bit * 2). */
  function SlotMask(bit: bv8): bv16
    requires bit < 8
  {
    0x3 << (2 * bit)
  }

  lemma ClearSlotHere(w: bv16, bit: bv8)
    requires bit < 8
    ensures Slot(w & !SlotMask(bit), bit) == 0
    ensures (w & !SlotMask(bit)) & !SlotMask(bit) == w & !SlotMask(bit)
  {
  }

  lemma OrSlotHere(w: bv16, bit: bv8, code: bv16)
    requires bit < 8
    ensures Slot(w | (code << (2 * bit)), bit) == Slot(w, bit) | (code & 0x3)
    ensures code <= 3 ==> (w | (code << (2 * bit))) & !SlotMask(bit) == w & !SlotMask(bit)
  {
  }

  /** `w & ~(IXOEVCFG_MASK << (bit * 2))`: the slot of line `bit` becomes
      zero. */
  function ClearSlot(w: bv16, bit: bv8): (r: bv16)
    requires bit < 8
    ensures Slot(r, bit) == 0
  {
    ClearSlotHere(w, bit);
    w & !SlotMask(bit)
  }

  /** Clearing one line's slot leaves the other seven slots' codes. */
  lemma ClearSlotKeeps(w: bv16, bit: bv8)
    requires bit < 8
    ensures forall j: bv8 :: j < 8 && j != bit ==> Slot(ClearSlot(w, bit), j) == Slot(w, j)
  {
    forall j: bv8 | j < 8 && j != bit
      ensures Slot(ClearSlot(w, bit), j) == Slot(w, j)
    {
      ClearSlotOther(w, bit, j);
    }
  }

  lemma ClearSlotOther(w: bv16, bit: bv8, j: bv8)
    requires bit < 8 && j < 8 && j != bit
    ensures Slot(ClearSlot(w, bit), j) == Slot(w, j)
  {
  }

  /** `w | (code << (bit * 2))`: the slot of line `bit` gains the low two
      bits of `code`. */
  function OrSlot(w: bv16, bit: bv8, code: bv16): (r: bv16)
    requires bit < 8
    ensures Slot(r, bit) == Slot(w, bit) | (code & 0x3)
  {
    OrSlotHere(w, bit, code);
    w | (code << (2 * bit))
  }

  /** A code of at most 3 ORed into one line's slot leaves the other seven
      slots' codes. */
  lemma OrSlotKeeps(w: bv16, bit: bv8, code: bv16)
    requires bit < 8 && code <= 3
    ensures forall j: bv8 :: j < 8 && j != bit ==> Slot(OrSlot(w, bit, code), j) == Slot(w, j)
  {
    forall j: bv8 | j < 8 && j != bit
      ensures Slot(OrSlot(w, bit, code), j) == Slot(w, j)
    {
      OrSlotOther(w, bit, code, j);
    }
  }

  lemma OrSlotOther(w: bv16, bit: bv8, code: bv16, j: bv8)
    requires bit < 8 && code <= 3 && j < 8 && j != bit
    ensures Slot(OrSlot(w, bit, code), j) == Slot(w, j)
  {
  }

  /** Unmasking twice gives the event-config word of unmasking once. */
  lemma OrSlotIdempotent(w: bv16, bit: bv8, code: bv16)
    requires bit < 8
    ensures OrSlot(OrSlot(w, bit, code), bit, code) == OrSlot(w, bit, code)
  {
  }

  /** Masking clears the slot whatever it held: masking after an unmask
      gives the word of masking alone. */
  lemma ClearSlotAbsorbs(w: bv16, bit: bv8, code: bv16)
    requires bit < 8
    requires code <= 3
    ensures ClearSlot(OrSlot(w, bit, code), bit) == ClearSlot(w, bit)
  {
    OrSlotHere(w, bit, code);
  }

  // ---------------------------------------------------------------------
  // IOXCTS: interface enable with the read mode forced to periodic
  // ---------------------------------------------------------------------

  /** The byte npcm_sgpio_setup_enable writes to IOXCTS: bit 7 says whether
      the interface is enabled, the read-mode field (bits 1-2) is forced to
      periodic, and bits 0 and 3-6 keep their old values. */
  function EnableByte(cur: bv8, enable: bool): (r: bv8)
    ensures (r & IoxCtsIfEn != 0) == enable
    ensures r & IoxCtsRdMode == IoxCtsRdModePeriodic
    ensures r & 0x79 == cur & 0x79
  {
    var reg := (cur & !IoxCtsRdMode) | IoxCtsRdModePeriodic;
    if enable then reg | IoxCtsIfEn else reg & !IoxCtsIfEn
  }

  /** The disable/enable bracket around an event-config update ends with
      the same IOXCTS byte as enabling directly. */
  lemma EnableBracket(b: bv8)
    ensures EnableByte(EnableByte(b, false), true) == EnableByte(b, true)
  {
  }

  // ---------------------------------------------------------------------
  // IOXCFG2: port widths
  // ---------------------------------------------------------------------

  /** The number of 8-line ports covering n lines: the least p with 8p >= n. */
  function PortCount(n: nat): (p: nat)
    ensures LinesPerBank * p >= n
    ensures p == 0 || LinesPerBank * (p - 1) < n
  {
    n / LinesPerBank + (if n % LinesPerBank > 0 then 1 else 0)
  }

  /** The IOXCFG2 byte `((out & 0xf) << 4) | (in & 0xf)`: its low nibble
      decodes to the input port count and its high nibble to the output
      port count, each cut to four bits. */
  function PortByte(inPort: bv8, outPort: bv8): (r: bv8)
    ensures r & 0xF == inPort & 0xF
    ensures r >> 4 == outPort & 0xF
  {
    ((outPort & 0xF) << 4) | (inPort & 0xF)
  }
}
