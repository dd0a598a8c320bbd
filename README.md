# NPCM serial-GPIO controller, modelled in Dafny

This project models the Nuvoton NPCM serial-GPIO (SGPIO) driver,
`drivers/gpio/gpio-npcm-sgpio.c`. The controller shifts up to 64 output
lines and 64 input lines through external shift registers. The driver
sees it as a window of 0x2C byte registers. Eight banks each have:

- a write-data byte at `i`;
- a read-data byte at `8 + i`;
- a 16-bit event-configuration word at `0x10 + 2i`, which holds one 2-bit
  trigger code per line;
- an event-status byte at `0x20 + i`.

Three control bytes follow: IOXCTS (0x28), IOXCFG1 (0x2A) and IOXCFG2
(0x2B). GPIO offsets `0 .. nout-1` are outputs. Offsets `nout ..` are
inputs, and so are the interrupt numbers.

The project is split into six modules:

- `sgpio_regs.dfy` (`SgpioRegs`): the bank table, `bank_reg`, `to_bank`,
  and the bit, slot and word helpers. A 16-bit register is two bytes,
  low byte first.
- `sgpio_clock.dfy` (`SgpioClock`): the shift-clock divisor tables and the
  first-overshoot search of `npcm_sgpio_setup_clk`. The search is a
  specification function, with its properties proved as lemmas.
- `sgpio_irq.dfy` (`SgpioIrq`): the trigger-type switch of
  `npcm_sgpio_set_type`, `irqd_to_npcm_sgpio_data`, and the sequence of
  interrupt numbers the chained handler delivers.
- `sgpio_window.dfy` (`SgpioWindow`): one pure function per register
  operation, from the window before the operation to the window after it.
  Lemmas state the effect of each one: which bits change, and that nothing
  else does.
- `sgpio_controller.dfy` (`SgpioController`): the driver state as a class.
  It has the register window `regs: array<bv8>`, the per-line `int_type`
  array, the line counts and port widths, the parent interrupt, and a
  ghost flow handler per input line. Every entry point that reads or
  changes the registers is a method, and each method's `ensures` ties the
  new window to the matching window function. `get_direction`, `dir_in`
  and `init_valid_mask` touch no register; they are the functions
  `Direction`, `DirIn` and `IrqValidMask` in `SgpioWindow`.
- `sgpio_probe.dfy` (`SgpioProbe`): the line-count check of
  `npcm_sgpio_probe`.

Registers behave as plain memory: a read returns the last byte written.
Where the driver's branches depend on what the device returns, that value
is a method parameter:

- the IOXCFG2 readback in `InitPort`;
- the APB clock rate in `SetupClk`;
- the `platform_get_irq` result in `SetupIrqs`.

The kernel's `IRQ_TYPE_*` values come from `include/linux/irq.h`: 1, 2, 3,
4 and 8, with a sense mask of 0xF. That header is not part of this model.

## Model

| member | source | states |
|---|---|---|
| SgpioRegs.BankTableLayout | drivers/gpio/gpio-npcm-sgpio.c:79-148 | BankReg (bank_reg) on table entry Banks[i]: bank i's read-data, write-data, event-config and event-status registers are at 8+i, i, 0x10+2i and 0x20+i |
| SgpioRegs.ToBankAddress | drivers/gpio/gpio-npcm-sgpio.c:150-155 | ToBank (to_bank): offset o < 64 selects bank o/8, and each register of that bank is at the closed-form address of bank o/8 |
| SgpioRegs.BankRegistersDisjoint | drivers/gpio/gpio-npcm-sgpio.c:79-129 | all bank registers lie below IOXCTS; two bytes of bank registers coincide only when bank, register and byte are the same |
| SgpioRegs.BitIndex | drivers/gpio/gpio-npcm-sgpio.c:39 | GPIO_BIT: the bit is below 8 and equals offset mod 8 |
| SgpioRegs.BitOf | drivers/gpio/gpio-npcm-sgpio.c:258-265 | the byte shifted right by the bit and masked with 1 is 0 or 1, and is 1 exactly when that bit is set |
| SgpioRegs.LineWrite | drivers/gpio/gpio-npcm-sgpio.c:236-241 | for val 0 or 1, the chosen bit of the byte becomes val and the other seven bits are unchanged |
| SgpioRegs.WordRoundTrip | drivers/gpio/gpio-npcm-sgpio.c:341-349 | splitting a 16-bit word into little-endian bytes and joining them gives the word back |
| SgpioRegs.Slot | drivers/gpio/gpio-npcm-sgpio.c:33 | a line's event-config slot is a 2-bit code, at most 3 |
| SgpioRegs.ClearSlot | drivers/gpio/gpio-npcm-sgpio.c:343 | clearing the line's two mask bits in the event-config word zeroes its slot |
| SgpioRegs.ClearSlotKeeps | drivers/gpio/gpio-npcm-sgpio.c:343 | clearing one slot leaves the seven sibling slots' codes unchanged |
| SgpioRegs.ClearSlotOther | drivers/gpio/gpio-npcm-sgpio.c:343 | clearing line bit's slot leaves the code of one given other line unchanged |
| SgpioRegs.OrSlot | drivers/gpio/gpio-npcm-sgpio.c:346 | OR-ing a code into a slot gives the old code OR the new one |
| SgpioRegs.OrSlotKeeps | drivers/gpio/gpio-npcm-sgpio.c:346 | OR-ing a code of at most 3 into one slot leaves the sibling slots unchanged |
| SgpioRegs.OrSlotOther | drivers/gpio/gpio-npcm-sgpio.c:346 | OR-ing a code into line bit's slot leaves the code of one given other line unchanged |
| SgpioRegs.OrSlotIdempotent | drivers/gpio/gpio-npcm-sgpio.c:346 | unmasking (or retyping) twice with the same code is the same as doing it once |
| SgpioRegs.ClearSlotAbsorbs | drivers/gpio/gpio-npcm-sgpio.c:343-346 | masking after an unmask gives the same word as masking alone |
| SgpioRegs.EnableByte | drivers/gpio/gpio-npcm-sgpio.c:271-286 | IOXIF_EN follows `enable`, RD_MODE becomes periodic, and every other IOXCTS bit is kept |
| SgpioRegs.EnableBracket | drivers/gpio/gpio-npcm-sgpio.c:339-351 | a disable followed by an enable has the same effect as the enable alone |
| SgpioRegs.PortCount | drivers/gpio/gpio-npcm-sgpio.c:178-184 | the port count is the least number of 8-line ports that holds n lines (ceil(n/8)) |
| SgpioRegs.PortByte | drivers/gpio/gpio-npcm-sgpio.c:188 | the low nibble is the input port count and the high nibble is the output port count |
| SgpioWindow.Direction | drivers/gpio/gpio-npcm-sgpio.c:217-224 | get_direction is 0 (output) exactly when offset < nout, otherwise 1 |
| SgpioWindow.DirIn | drivers/gpio/gpio-npcm-sgpio.c:199-204 | dir_in returns 0 for an input line and -EINVAL for an output line |
| SgpioWindow.GetValue | drivers/gpio/gpio-npcm-sgpio.c:245-269 | get is 0 or 1; an output reads its bit of the write-data byte o/8; an input reads bit (o-nout)%8 of read-data byte (o-nout)/8 |
| SgpioWindow.SetThenGet | drivers/gpio/gpio-npcm-sgpio.c:226-269 | SetWindow (the window after set): after set(o, v) with v 0 or 1, get(o) on an output returns v; every other line reads as before; only write-data byte o/8 changes |
| SgpioWindow.SetKeepsLine | drivers/gpio/gpio-npcm-sgpio.c:226-269 | set(o, v) leaves the value read back from any other line unchanged |
| SgpioWindow.PortSettingDecodes | drivers/gpio/gpio-npcm-sgpio.c:174-197 | the IOXCFG2 byte's nibbles decode back to ceil(nin/8) and ceil(nout/8), each at most 8 |
| SgpioWindow.ClkWindowFields | drivers/gpio/gpio-npcm-sgpio.c:297-306 | the programmed IOXCFG1 holds CLK_SEL[k] in bits 0-3 and its old bits 4-7; no other register changes |
| SgpioWindow.WordWindowEffect | drivers/gpio/gpio-npcm-sgpio.c:339-351 | a bracketed 16-bit write sets bank i's event-config word, keeps the other banks' words, leaves IOXCTS enabled with its other bits kept, and changes nothing else |
| SgpioWindow.MaskWindowLayout | drivers/gpio/gpio-npcm-sgpio.c:324-359 | MaskWindow (the window after irq_set_mask): irq_set_mask rewrites the line's event-config word and ORs BIT(bit) into its status byte; other banks' words and status bytes, data bytes and IOXCFG1/2 are unchanged |
| SgpioWindow.MaskWindowEffect | drivers/gpio/gpio-npcm-sgpio.c:324-359 | mask zeroes exactly the line's slot; unmask ORs int_type into it; sibling slots are unchanged |
| SgpioWindow.UnmaskAfterMask | drivers/gpio/gpio-npcm-sgpio.c:377-385 | unmask after mask leaves exactly int_type in the line's slot |
| SgpioWindow.AckWindowEffect | drivers/gpio/gpio-npcm-sgpio.c:361-375 | AckWindow (the window after irq_ack): ack writes a status byte with exactly the line's bit set, and changes no other register |
| SgpioWindow.OneHot | drivers/gpio/gpio-npcm-sgpio.c:373 | BIT(bit) has bit j set exactly when j == bit |
| SgpioWindow.TypeWindowEffect | drivers/gpio/gpio-npcm-sgpio.c:428-435 | TypeWindow (the window after set_type's register update): set_type ORs the code into the line's slot, keeps sibling slots and the other banks' words, and leaves IOXCTS enabled; data, status and IOXCFG bytes are unchanged |
| SgpioWindow.RetypeAccumulates | drivers/gpio/gpio-npcm-sgpio.c:425-435 | setting rising then falling on a cleared slot leaves the both-edges code, because set_type ORs instead of replacing |
| SgpioWindow.ResetBanksEffect | drivers/gpio/gpio-npcm-sgpio.c:481-486 | ResetBanks (the reset loop after i iterations): banks 0..i-1 have config word 0 and status 0xFF, later banks are untouched, and data and control bytes are unchanged |
| SgpioWindow.ResetWindowEffect | drivers/gpio/gpio-npcm-sgpio.c:478-486 | ResetWindow (the window after setup_irqs): every slot is 0, every status byte is 0xFF, IOXCTS is EnableByte(old, false) (interface disabled, periodic read mode, other bits kept), and data bytes and IOXCFG1/2 are unchanged |
| SgpioWindow.IrqValidMask | drivers/gpio/gpio-npcm-sgpio.c:313-322 | exactly the input lines nout..nout+nin-1 are valid interrupt lines; bits beyond them are untouched |
| SgpioClock.FirstOvershoot | drivers/gpio/gpio-npcm-sgpio.c:299-303 | a found overshoot index is non-zero, in range and not before the start |
| SgpioClock.FirstOvershootSpec | drivers/gpio/gpio-npcm-sgpio.c:299-303 | a found index k overshoots the request and no earlier non-zero index does; with none found, no non-zero index overshoots |
| SgpioClock.SelectedIndex | drivers/gpio/gpio-npcm-sgpio.c:288-311 | a selected entry is in range |
| SgpioClock.SelectedIndexSpec | drivers/gpio/gpio-npcm-sgpio.c:288-311 | setup_clk selects k exactly when k is the entry before the first overshoot (or the last entry, strictly below the request, when nothing overshoots), and fails exactly otherwise |
| SgpioClock.AscendingSpan | drivers/gpio/gpio-npcm-sgpio.c:507-533 | on a table with non-decreasing rates, a later entry's rate is at least an earlier one's |
| SgpioClock.SelectedIsFastestNotAbove | drivers/gpio/gpio-npcm-sgpio.c:288-311 | on an ascending table the selection is the fastest entry not above the request (or entry 0), and with two or more entries setup_clk fails exactly when the request equals the fastest rate |
| SgpioClock.TablesAscending | drivers/gpio/gpio-npcm-sgpio.c:507-533 | both chip tables are well formed and give non-decreasing rates for any APB rate below 2^33 |
| SgpioClock.AdjacentDivisors | drivers/gpio/gpio-npcm-sgpio.c:507-533 | neighbouring entries of both tables give non-decreasing u32 rates |
| SgpioClock.TableDivisors | drivers/gpio/gpio-npcm-sgpio.c:507-517 | in both tables, every divisor after the first is at least 2 and at most its predecessor |
| SgpioClock.RateStep | drivers/gpio/gpio-npcm-sgpio.c:300 | a larger divisor (at least 2) gives a u32 rate no higher than a smaller one |
| SgpioClock.DivStep | drivers/gpio/gpio-npcm-sgpio.c:300 | integer division by a larger divisor gives a quotient no larger |
| SgpioClock.Npcm750At50kHz | drivers/gpio/gpio-npcm-sgpio.c:288-311 | NPCM750 at 25 MHz asked for 50 kHz selects entry 0, code 0x00 |
| SgpioClock.ExactFastestRateRejected | drivers/gpio/gpio-npcm-sgpio.c:299-310 | NPCM750 at 25 MHz rejects 12.5 MHz, its own fastest rate, but selects it for 12.5 MHz + 1 |
| SgpioClock.SelectedIndexIntendedTotal | drivers/gpio/gpio-npcm-sgpio.c:288-311 | with `>=` on the last entry, every request selects the fastest entry not above it (or entry 0), and this agrees with the as-written selection wherever that one succeeds |
| SgpioIrq.TypeCode | drivers/gpio/gpio-npcm-sgpio.c:387-424 | only the five sense types are accepted; the code is 1..3, rising and falling bits follow the type, edge types get the edge flow and level types the level flow |
| SgpioIrq.IrqToData | drivers/gpio/gpio-npcm-sgpio.c:157-172 | the input-relative offset is hwirq - nout, the bank is table entry offset/8, and the bit is offset%8 |
| SgpioIrq.BankHitsSpec | drivers/gpio/gpio-npcm-sgpio.c:456-460 | for_each_set_bit visits exactly the set bits of a bank's status byte, in ascending order |
| SgpioIrq.DispatchSpec | drivers/gpio/gpio-npcm-sgpio.c:443-464 | Dispatch (the handler's delivered sequence): the handler delivers x exactly when x = i*8 + nout + j for a set bit j of status byte i, each once, in ascending order |
| SgpioIrq.DispatchDecodes | drivers/gpio/gpio-npcm-sgpio.c:157-172 | a number the handler delivers for bank i, bit j decodes back to line i*8+j, bank i, bit j |
| SgpioIrq.AscendingUnique | drivers/gpio/gpio-npcm-sgpio.c:453-460 | two strictly ascending delivery sequences with the same members are equal, so the handler's order is fixed by its set |
| SgpioIrq.DispatchThreeLines | drivers/gpio/gpio-npcm-sgpio.c:443-464 | status bits for input lines 3, 20 and 50 give exactly those three deliveries, in that order |
| SgpioController.Controller.constructor | drivers/gpio/gpio-npcm-sgpio.c:51-62 | the zero-allocated controller starts with int_type all 0 and every flow handler handle_bad_irq |
| SgpioController.Controller.Write16 | drivers/gpio/gpio-npcm-sgpio.c:349 | iowrite16 stores the word's two bytes, low byte first, and nothing else |
| SgpioController.Controller.Set | drivers/gpio/gpio-npcm-sgpio.c:226-243 | the window becomes SetWindow of the old one; for val 0 or 1 on an output, get then returns val |
| SgpioController.Controller.Get | drivers/gpio/gpio-npcm-sgpio.c:245-269 | returns GetValue of the window (0 or 1, from the write-data or read-data byte by direction) and changes nothing |
| SgpioController.Controller.DirOut | drivers/gpio/gpio-npcm-sgpio.c:206-215 | an output line is set and 0 is returned; an input line gives -EINVAL with the window unchanged |
| SgpioController.Controller.SetupEnable | drivers/gpio/gpio-npcm-sgpio.c:271-286 | only IOXCTS changes, to EnableByte of its old value |
| SgpioController.Controller.InitPort | drivers/gpio/gpio-npcm-sgpio.c:174-197 | in_port and out_port are ceil(nin/8) and ceil(nout/8); only IOXCFG2 is written; 0 is returned exactly when the readback equals the written byte, otherwise -EINVAL |
| SgpioController.Controller.SetupClk | drivers/gpio/gpio-npcm-sgpio.c:288-311 | writes IOXCFG1 for SelectedIndex and returns 0, or returns -EINVAL with the window unchanged |
| SgpioController.Controller.IrqSetMask | drivers/gpio/gpio-npcm-sgpio.c:324-359 | the window becomes MaskWindow for the line's int_type |
| SgpioController.Controller.IrqMask | drivers/gpio/gpio-npcm-sgpio.c:377-380 | irq_set_mask with set = true |
| SgpioController.Controller.IrqUnmask | drivers/gpio/gpio-npcm-sgpio.c:382-385 | irq_set_mask with set = false |
| SgpioController.Controller.IrqAck | drivers/gpio/gpio-npcm-sgpio.c:361-375 | the window becomes AckWindow: a one-hot write of the line's status byte |
| SgpioController.Controller.SetType | drivers/gpio/gpio-npcm-sgpio.c:387-441 | an unsupported type gives -EINVAL and changes nothing; otherwise int_type[offset] and the flow handler are set, and only the line's slot gains the code |
| SgpioController.Controller.IrqHandler | drivers/gpio/gpio-npcm-sgpio.c:443-464 | the delivered sequence is Dispatch of the eight status bytes, and no register changes |
| SgpioController.Controller.SetBits | drivers/gpio/gpio-npcm-sgpio.c:457-460 | the bit loop yields first+j for each set bit j, in ascending order |
| SgpioController.Controller.SetupIrqs | drivers/gpio/gpio-npcm-sgpio.c:466-486 | a negative parent interrupt is returned unchanged; otherwise irq is stored, the interface is disabled, and every bank's config word becomes 0 and status byte 0xFF |
| SgpioProbe.CheckCounts | drivers/gpio/gpio-npcm-sgpio.c:573-579 | the check rejects exactly when a u8-truncated count exceeds 64; accepted counts are the truncated values, at most 64 |
| SgpioProbe.CheckCountsAccepts257 | drivers/gpio/gpio-npcm-sgpio.c:573-579 | a property of 257 input lines is accepted and stored as 1 |
| SgpioProbe.CheckCountsIntended | drivers/gpio/gpio-npcm-sgpio.c:573-579 | the check on the u32 values accepts exactly counts up to 64 and keeps them |
| SgpioProbe.CheckCountsAgreeBelow256 | drivers/gpio/gpio-npcm-sgpio.c:573-579 | both checks agree on properties below 256 |
| SgpioProbe.IntendedAcceptsImpliesAsWritten | drivers/gpio/gpio-npcm-sgpio.c:573-579 | whatever the u32 check accepts, the as-written check accepts with the same counts |

## Left out

- The probe glue is not modelled, apart from the count check: allocation, ioremap, property reads, match data, `devm_clk_get`, `devm_gpiochip_add_data`, the `printk`, and the module and of_device_id tables. These are framework calls. The controller's constructor takes the counts, already checked, and the initial window.
- Spinlocks are left out. Every method is one atomic sequential step, so concurrent interleavings are not modelled.
- `chained_irq_enter`/`exit`, `irq_find_mapping` and `generic_handle_irq` are left out. The handler instead returns the sequence of interrupt numbers it hands on.
- `irq_set_handler_locked` becomes the ghost `flow` tag of the line.
- `clk_get_rate`, the IOXCFG2 readback and `platform_get_irq` are method parameters, not device behaviour.
- The `gpio_chip` and `irq_chip` callback wiring (lines 488-502 and 599-610) only registers functions, so it is left out.
- Write-1-to-clear semantics of the event-status bytes are not modelled. Registers are plain memory, so the effect of `status | BIT(bit)` in irq_set_mask is on stored bytes only. The hardware's clearing of other pending bits is not captured.
- The base address is left out. Addresses are relative to the window.
- SgpioController.Controller.Set: requires offset < 64. `to_bank` on a larger offset reads past the eight-entry bank table, which has no defined result to model.
- SgpioController.Controller.Set: the single-bit and read-back claims are stated only for val 0 or 1. For other values the model writes `val << bit` truncated to a byte, as the code does, but no claim is made about it.
- SgpioController.Controller.IrqHandler: its ensures is stated through Dispatch. The exactly-once, ascending and decoding properties are proved about Dispatch in SgpioIrq.DispatchSpec and SgpioIrq.DispatchDecodes.
- SgpioController.Controller.SetupClk: requires the APB rate below 2^64 and the request below 2^32, the widths of the C types. The u32 truncation of `apb / SFT_CLK[i]` is modelled (Rate).
- The `BUG()` default of `bank_reg` cannot be reached: the register kind is a datatype with four cases.
- The `WARN_ON` in `irqd_to_npcm_sgpio_data` is left out: the model's controller is always present.

Clock selection also fails when the request equals the fastest rate; see the findings.

## Findings

| source | as written | input that shows it | evidently intended | confidence | as-written member | corrected member |
|---|---|---|---|---|---|---|
| drivers/gpio/gpio-npcm-sgpio.c:299-310 | after no overshoot, the last entry is chosen only when the request is strictly above its rate | NPCM750, APB 25 MHz, bus-frequency 12500000: no entry overshoots and 12500000 is not above 12500000, so probe fails with -EINVAL | the fastest entry is chosen when the request is at or above its rate (`>=`) | not executed | SgpioClock.ExactFastestRateRejected | SgpioClock.SelectedIndexIntendedTotal |
| drivers/gpio/gpio-npcm-sgpio.c:573-579 | the u32 counts are stored in u8 fields before the `> MAX_NR_HW_SGPIO` test | nuvoton,input-ngpios = 257: stored as 1, passes the test, and the controller runs with one input line | the u32 property values are compared | not executed | SgpioProbe.CheckCountsAccepts257 | SgpioProbe.CheckCountsIntended |
